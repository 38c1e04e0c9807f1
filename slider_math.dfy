/** The pointer arithmetic of the two-thumb range slider, shared by the
    modal (components/FilterModal.tsx) and the page (app/filter.tsx)
    versions: the clamped pointer fraction, the candidate value, the pinning
    that keeps the thumbs from crossing, and the rendered thumb position.
    JavaScript numbers are modelled as exact reals. */
module SliderMath {
  import opened FilterTypes

  /** `activeThumb`: 0 is the low thumb, 1 the high thumb. */
  type Thumb = i: int | 0 <= i <= 1

  /** `values[i]`. */
  function At(r: Range, i: Thumb): real {
    if i == 0 then r.0 else r.1
  }

  /** The thumb that is not `i`. */
  function Other(i: Thumb): Thumb {
    1 - i
  }

  function RealMin(a: real, b: real): real { if a < b then a else b }
  function RealMax(a: real, b: real): real { if a > b then a else b }

  /** Nonlinear facts about real products and quotients, each stated on
      its own so that the solver needs no luck to combine them. */
  lemma MulPositive(a: real, b: real)
    requires 0.0 < a && 0.0 < b
    ensures 0.0 < a * b
  {
  }

  lemma MulNonNegative(a: real, b: real)
    requires 0.0 <= a && 0.0 <= b
    ensures 0.0 <= a * b
  {
    if a > 0.0 && b > 0.0 {
      MulPositive(a, b);
    }
  }

  /** The defining property of real division. */
  lemma DivDef(a: real, d: real)
    requires d != 0.0
    ensures (a / d) * d == a
  {
  }

  /** A non-zero factor can be cancelled. */
  lemma MulCancel(a: real, b: real, d: real)
    requires d != 0.0 && a * d == b * d
    ensures a == b
  {
    assert (a - b) * d == a * d - b * d;
    if a > b {
      if d > 0.0 {
        MulPositive(a - b, d);
      } else {
        MulPositive(a - b, -d);
      }
    } else if a < b {
      if d > 0.0 {
        MulPositive(b - a, d);
      } else {
        MulPositive(b - a, -d);
      }
    }
  }

  lemma MulDivCancel(p: real, d: real)
    requires d != 0.0
    ensures (p * d) / d == p
  {
    DivDef(p * d, d);
    MulCancel((p * d) / d, p, d);
  }

  lemma DivSelf(d: real)
    requires d != 0.0
    ensures d / d == 1.0
  {
    DivDef(d, d);
    assert 1.0 * d == d;
    MulCancel(d / d, 1.0, d);
  }

  lemma DivZero(d: real)
    requires d != 0.0
    ensures 0.0 / d == 0.0
  {
    DivDef(0.0, d);
    assert 0.0 * d == 0.0;
    MulCancel(0.0 / d, 0.0, d);
  }

  lemma DivNonNegative(a: real, d: real)
    requires 0.0 <= a && 0.0 < d
    ensures 0.0 <= a / d
  {
    var q := a / d;
    DivDef(a, d);
    if q < 0.0 {
      MulPositive(-q, d);
    }
  }

  lemma DivSub(a: real, b: real, d: real)
    requires d != 0.0
    ensures (b - a) / d == b / d - a / d
  {
    DivDef(b - a, d);
    DivDef(a, d);
    DivDef(b, d);
    assert (b / d - a / d) * d == (b / d) * d - (a / d) * d;
    MulCancel((b - a) / d, b / d - a / d, d);
  }

  /** Division by a positive real is monotone. */
  lemma DivMonotone(a: real, b: real, d: real)
    requires a <= b && 0.0 < d
    ensures a / d <= b / d
  {
    DivNonNegative(b - a, d);
    DivSub(a, b, d);
  }

  /** Scaling a non-negative span by a fraction in [0, 1] stays within the
      span. */
  lemma ScaleWithinSpan(p: real, d: real)
    requires 0.0 <= p <= 1.0 && 0.0 <= d
    ensures 0.0 <= p * d <= d
  {
    MulNonNegative(p, d);
    MulNonNegative(1.0 - p, d);
    assert (1.0 - p) * d == d - p * d;
  }

  /** `Math.min(Math.max(x / width, 0), 1)`: the share of the track left of
      the pointer, clamped to [0, 1]. */
  function Fraction(x: real, width: real): (p: real)
    requires width > 0.0
    ensures 0.0 <= p <= 1.0
    ensures 0.0 <= x <= width ==> p == x / width
    ensures x <= 0.0 ==> p == 0.0
    ensures x >= width ==> p == 1.0
  {
    assert x <= 0.0 ==> x / width <= 0.0 by {
      if x <= 0.0 {
        DivMonotone(x, 0.0, width);
        DivZero(width);
      }
    }
    assert x <= width ==> x / width <= 1.0 by {
      if x <= width {
        DivMonotone(x, width, width);
        DivSelf(width);
      }
    }
    assert 0.0 <= x ==> 0.0 <= x / width by {
      if 0.0 <= x {
        DivNonNegative(x, width);
      }
    }
    RealMin(RealMax(x / width, 0.0), 1.0)
  }

  /** `min + percentage * (max - min)`: the value under the pointer. It
      always lies in [min, max] and reaches both ends. */
  function Candidate(b: Bounds, x: real, width: real): (v: real)
    requires width > 0.0
    ensures b.min <= b.max ==> b.min <= v <= b.max
    ensures x <= 0.0 ==> v == b.min
    ensures x >= width ==> v == b.max
  {
    var p := Fraction(x, width);
    Interpolate(b, p);
    b.min + p * (b.max - b.min)
  }

  /** `min + p * (max - min)` for a fraction `p` in [0, 1]: inside the
      bounds when they are ordered, and at either end for `p` 0 and 1. */
  lemma Interpolate(b: Bounds, p: real)
    requires 0.0 <= p <= 1.0
    ensures b.min <= b.max ==> b.min <= b.min + p * (b.max - b.min) <= b.max
    ensures p == 0.0 ==> b.min + p * (b.max - b.min) == b.min
    ensures p == 1.0 ==> b.min + p * (b.max - b.min) == b.max
  {
    if b.min <= b.max {
      InterpolateWithin(b.min, b.max, p);
    }
    if p == 0.0 || p == 1.0 {
      InterpolateAt(b.min, b.max, p);
    }
  }

  /** The two ends of the interpolation. */
  lemma InterpolateAt(lo: real, hi: real, p: real)
    requires p == 0.0 || p == 1.0
    ensures lo + p * (hi - lo) == (if p == 0.0 then lo else hi)
  {
    if p == 0.0 {
      assert p * (hi - lo) == 0.0;
    } else {
      assert p * (hi - lo) == hi - lo;
    }
  }

  /** `lo + p * (hi - lo)` for a fraction `p` in [0, 1] lies in [lo, hi]. */
  lemma InterpolateWithin(lo: real, hi: real, p: real)
    requires lo <= hi && 0.0 <= p <= 1.0
    ensures lo <= lo + p * (hi - lo) <= hi
  {
    var d := hi - lo;
    var s := p * d;
    ScaleWithinSpan(p, d);
    assert 0.0 <= s <= d;
  }

  /** The pair emitted when thumb `i` is moved to `v`
      (components/FilterModal.tsx and app/filter.tsx alike): the other entry
      is copied, and the active entry is `v` unless that would cross the
      other thumb, in which case it is pinned to the other thumb's value. */
  function MoveThumb(values: Range, i: Thumb, v: real): (r: Range)
    ensures At(r, Other(i)) == At(values, Other(i))
    ensures i == 0 ==> r.0 <= values.1 && (r.0 == v <==> v <= values.1)
    ensures i == 0 && v > values.1 ==> r.0 == values.1
    ensures i == 1 ==> r.1 >= values.0 && (r.1 == v <==> v >= values.0)
    ensures i == 1 && v < values.0 ==> r.1 == values.0
  {
    if i == 0 then (if v > values.1 then values.1 else v, values.1)
    else (values.0, if v < values.0 then values.0 else v)
  }

  /** A move to a value inside the bounds keeps an ordered in-bounds pair
      ordered and in bounds. */
  lemma MoveKeepsRangeValid(values: Range, i: Thumb, v: real, b: Bounds)
    requires RangeValid(values, b)
    requires b.min <= v <= b.max
    ensures RangeValid(MoveThumb(values, i, v), b)
  {
  }

  /** What `handleTouchMove` emits for a pointer at `x` on a track of
      `width` while thumb `i` is active. */
  function PointerMove(values: Range, i: Thumb, b: Bounds, x: real, width: real): Range
    requires width > 0.0
  {
    MoveThumb(values, i, Candidate(b, x, width))
  }

  /** A touch move keeps an ordered in-bounds pair ordered and in bounds,
      and changes only the active entry. */
  lemma PointerMoveKeepsRangeValid(values: Range, i: Thumb, b: Bounds, x: real, width: real)
    requires width > 0.0
    requires RangeValid(values, b)
    ensures RangeValid(PointerMove(values, i, b, x, width), b)
    ensures At(PointerMove(values, i, b, x, width), Other(i)) == At(values, Other(i))
  {
    MoveKeepsRangeValid(values, i, Candidate(b, x, width), b);
  }

  /** One pointer event of a drag: the thumb pressed and the pointer x. */
  datatype Move = Move(thumb: Thumb, x: real)

  /** The pair after a sequence of moves, each fed the previous result
      (the caller stores every emitted pair and passes it back as `values`). */
  function Drag(values: Range, b: Bounds, width: real, moves: seq<Move>): Range
    requires width > 0.0
    decreases |moves|
  {
    if moves == [] then values
    else Drag(PointerMove(values, moves[0].thumb, b, moves[0].x, width), b, width, moves[1..])
  }

  /** Every drag sequence keeps the pair ordered and inside [min, max]. */
  lemma {:induction false} DragKeepsRangeValid(values: Range, b: Bounds, width: real, moves: seq<Move>)
    requires width > 0.0
    requires RangeValid(values, b)
    ensures RangeValid(Drag(values, b, width, moves), b)
    decreases |moves|
  {
    if moves != [] {
      PointerMoveKeepsRangeValid(values, moves[0].thumb, b, moves[0].x, width);
      DragKeepsRangeValid(PointerMove(values, moves[0].thumb, b, moves[0].x, width), b, width, moves[1..]);
    }
  }

  /** `((v - min) / (max - min)) * 100`: the rendered left offset of a thumb,
      in percent of the track. */
  function Position(b: Bounds, v: real): real
    requires b.min < b.max
  {
    Share(b, v) * 100.0
  }

  /** `(v - min) / (max - min)`: the share of the track left of `v`. */
  function Share(b: Bounds, v: real): real
    requires b.min < b.max
  {
    (v - b.min) / (b.max - b.min)
  }

  /** When no pinning happens, the moved thumb is drawn exactly at the
      clamped pointer fraction of the track. */
  lemma PositionRoundTrip(values: Range, i: Thumb, b: Bounds, x: real, width: real)
    requires width > 0.0 && b.min < b.max
    requires At(PointerMove(values, i, b, x, width), i) == Candidate(b, x, width)
    ensures Position(b, At(PointerMove(values, i, b, x, width), i)) == Fraction(x, width) * 100.0
  {
    var p := Fraction(x, width);
    var d := b.max - b.min;
    assert b.min + p * d - b.min == p * d;
    MulDivCancel(p, d);
    assert Share(b, Candidate(b, x, width)) == p;
  }

  /** An ordered in-bounds pair is drawn with both thumbs on the track and
      the low thumb left of the high one. */
  lemma PositionsOrdered(r: Range, b: Bounds)
    requires b.min < b.max
    requires RangeValid(r, b)
    ensures 0.0 <= Position(b, r.0) <= Position(b, r.1) <= 100.0
  {
    var d := b.max - b.min;
    DivNonNegative(r.0 - b.min, d);
    DivMonotone(r.0 - b.min, r.1 - b.min, d);
    DivMonotone(r.1 - b.min, d, d);
    DivSelf(d);
    assert 0.0 <= Share(b, r.0) <= Share(b, r.1) <= 1.0;
  }
}
