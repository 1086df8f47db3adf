/** The piecewise-linear borrow rate curve: getBorrowRate and interpolate of src/classes/utils.ts,
    truncateBorrowCurve of src/classes/reserve.ts and padPoints of src/classes/curve.ts. */
module RateCurve {
  import opened RealArithmetic
  import opened Wrappers

  const ONE_HUNDRED_PCT_IN_BPS: nat := 10000
  const CURVE_POINTS_LENGTH: nat := 11

  /** A stored point, in basis points. */
  datatype CurvePoint = CurvePoint(utilizationRateBps: nat, borrowRateBps: nat)

  /** A knot as fractions: (utilisation, rate). */
  type Knot = (real, real)

  datatype CurveError = OnlyOnePoint | NoSegment | NotIncreasing | Extrapolation | TooManyPoints

  // ---------------------------------------------------------------- what the source computes

  function Interpolate(x: real, x0: real, x1: real, y0: real, y1: real): Result<real, CurveError>
    requires x0 < x1
  {
    if x > x1 then Err(Extrapolation) else Ok(y0 + (x - x0) * (y1 - y0) / (x1 - x0))
  }

  /** Utilisation above 100% counts as 100%. */
  function Clamp(utilization: real): real {
    if utilization > 1.0 then 1.0 else utilization
  }

  /** The first knot from i on whose utilisation is at least u; the length if there is none. */
  function FirstAtLeast(curve: seq<Knot>, u: real, i: nat): (k: nat)
    requires i <= |curve|
    ensures i <= k <= |curve|
    ensures forall j :: i <= j < k ==> curve[j].0 < u
    ensures k < |curve| ==> u <= curve[k].0
    decreases |curve| - i
  {
    if i == |curve| || u <= curve[i].0 then i else FirstAtLeast(curve, u, i + 1)
  }

  /** The outcome of getBorrowRate on any curve, valid or not. */
  function BorrowRate(utilization: real, curve: seq<Knot>): Result<real, CurveError> {
    if |curve| < 2 then Err(OnlyOnePoint) else
    var u := Clamp(utilization);
    var k := FirstAtLeast(curve, u, 1);
    if k == |curve| then Err(NoSegment)
    else if curve[k].0 == u then Ok(curve[k].1)
    else if curve[k - 1] == (0.0, 0.0) && curve[k] == (0.0, 0.0) then Err(NoSegment)
    else if curve[k - 1].0 >= curve[k].0 || curve[k - 1].1 > curve[k].1 then Err(NotIncreasing)
    else Interpolate(u, curve[k - 1].0, curve[k].0, curve[k - 1].1, curve[k].1)
  }

  method GetBorrowRate(currentUtilization: real, curve: seq<Knot>) returns (r: Result<real, CurveError>)
    ensures r == BorrowRate(currentUtilization, curve)
  {
    var x0, y0, x1, y1 := 0.0, 0.0, 0.0, 0.0;
    if |curve| < 2 {
      return Err(OnlyOnePoint);
    }
    var utilization := currentUtilization;
    if utilization > 1.0 {
      utilization := 1.0;
    }
    var i := 1;
    while i < |curve|
      invariant 1 <= i <= |curve|
      invariant FirstAtLeast(curve, utilization, 1) == FirstAtLeast(curve, utilization, i)
      invariant (x0, y0) == (0.0, 0.0) && (x1, y1) == (0.0, 0.0)
    {
      var (pointUtilization, pointRate) := curve[i];
      if pointUtilization == utilization {
        return Ok(pointRate);
      }
      if utilization <= pointUtilization {
        x0, y0 := curve[i - 1].0, curve[i - 1].1;
        x1, y1 := curve[i].0, curve[i].1;
        break;
      }
      i := i + 1;
    }
    if x0 == 0.0 && y0 == 0.0 && x1 == 0.0 && y1 == 0.0 {
      return Err(NoSegment);
    }
    if x0 >= x1 || y0 > y1 {
      return Err(NotIncreasing);
    }
    return Interpolate(utilization, x0, x1, y0, y1);
  }

  function Scale(p: CurvePoint): Knot {
    (p.utilizationRateBps as real / ONE_HUNDRED_PCT_IN_BPS as real,
     p.borrowRateBps as real / ONE_HUNDRED_PCT_IN_BPS as real)
  }

  function Scaled(points: seq<CurvePoint>): (curve: seq<Knot>)
    ensures |curve| == |points| && forall i :: 0 <= i < |points| ==> curve[i] == Scale(points[i])
  {
    seq(|points|, i requires 0 <= i < |points| => Scale(points[i]))
  }

  /** How many points truncateBorrowCurve keeps: up to and including the first at 100%. */
  function KeptFrom(points: seq<CurvePoint>, i: nat): (n: nat)
    requires i <= |points|
    ensures i <= n <= |points|
    decreases |points| - i
  {
    if i == |points| then i
    else if points[i].utilizationRateBps == ONE_HUNDRED_PCT_IN_BPS then i + 1
    else KeptFrom(points, i + 1)
  }

  method TruncateBorrowCurve(points: seq<CurvePoint>) returns (curve: seq<Knot>)
    ensures curve == Scaled(points[..KeptFrom(points, 0)])
  {
    curve := [];
    for i := 0 to |points|
      invariant curve == Scaled(points[..i])
      invariant KeptFrom(points, 0) == KeptFrom(points, i)
    {
      curve := curve + [Scale(points[i])];
      assert curve == Scaled(points[..i + 1]);
      if points[i].utilizationRateBps == ONE_HUNDRED_PCT_IN_BPS {
        return;
      }
    }
  }

  /** The stored array has a fixed length: the last point is repeated to fill it. */
  function PadPoints(points: seq<CurvePoint>): Result<seq<CurvePoint>, CurveError>
    requires points != []
  {
    if |points| > CURVE_POINTS_LENGTH then Err(TooManyPoints)
    else Ok(points + seq(CURVE_POINTS_LENGTH - |points|, _ => points[|points| - 1]))
  }

  // ---------------------------------------------------------------- valid curves

  /** A configured curve: utilisation strictly rising from 0% to 100%, rates never falling. */
  ghost predicate ValidPoints(points: seq<CurvePoint>) {
    && 2 <= |points| <= CURVE_POINTS_LENGTH
    && points[0].utilizationRateBps == 0
    && points[|points| - 1].utilizationRateBps == ONE_HUNDRED_PCT_IN_BPS
    && (forall i, j :: 0 <= i < j < |points| ==> points[i].utilizationRateBps < points[j].utilizationRateBps)
    && (forall i, j :: 0 <= i < j < |points| ==> points[i].borrowRateBps <= points[j].borrowRateBps)
  }

  ghost predicate ValidCurve(curve: seq<Knot>) {
    && 2 <= |curve|
    && curve[0].0 == 0.0 && 0.0 <= curve[0].1
    && curve[|curve| - 1].0 == 1.0
    && (forall i, j :: 0 <= i < j < |curve| ==> curve[i].0 < curve[j].0)
    && (forall i, j :: 0 <= i < j < |curve| ==> curve[i].1 <= curve[j].1)
  }

  lemma {:induction false} ScaledIsValid(points: seq<CurvePoint>)
    requires ValidPoints(points)
    ensures ValidCurve(Scaled(points))
  {
    var curve := Scaled(points);
    forall i, j | 0 <= i < j < |curve| ensures curve[i].0 < curve[j].0 && curve[i].1 <= curve[j].1 {
      assert points[i].utilizationRateBps < points[j].utilizationRateBps;
      assert points[i].borrowRateBps <= points[j].borrowRateBps;
    }
  }

  lemma {:induction false} KeptUpTo(points: seq<CurvePoint>, i: nat, last: nat)
    requires i <= last < |points|
    requires forall j :: i <= j < last ==> points[j].utilizationRateBps != ONE_HUNDRED_PCT_IN_BPS
    requires points[last].utilizationRateBps == ONE_HUNDRED_PCT_IN_BPS
    ensures KeptFrom(points, i) == last + 1
    decreases last - i
  {
    if i < last {
      KeptUpTo(points, i + 1, last);
    }
  }

  /** Padding a configured curve and cutting it back gives the curve, as fractions. */
  lemma {:induction false} PadThenTruncate(points: seq<CurvePoint>)
    requires ValidPoints(points)
    ensures PadPoints(points).Ok?
    ensures var padded := PadPoints(points).value;
            && |padded| == CURVE_POINTS_LENGTH
            && Scaled(padded[..KeptFrom(padded, 0)]) == Scaled(points)
  {
    var padded := PadPoints(points).value;
    var last := |points| - 1;
    forall j | 0 <= j < last ensures padded[j].utilizationRateBps != ONE_HUNDRED_PCT_IN_BPS {
      assert points[j].utilizationRateBps < points[last].utilizationRateBps;
    }
    KeptUpTo(padded, 0, last);
    assert padded[..last + 1] == points;
  }

  // ---------------------------------------------------------------- the curve as a line

  /** y lies on the straight line from knot k - 1 to knot k, above x. */
  ghost predicate OnSegment(curve: seq<Knot>, k: nat, x: real, y: real) {
    && 0 < k < |curve|
    && curve[k - 1].0 <= x <= curve[k].0
    && (y - curve[k - 1].1) * (curve[k].0 - curve[k - 1].0) == (x - curve[k - 1].0) * (curve[k].1 - curve[k - 1].1)
  }

  /** (x, y) lies on the polygon through the knots. */
  ghost predicate OnCurve(curve: seq<Knot>, x: real, y: real) {
    exists k: nat :: OnSegment(curve, k, x, y)
  }

  lemma SegmentBounds(x: real, y: real, x0: real, y0: real, x1: real, y1: real)
    requires x0 < x1 && y0 <= y1 && x0 <= x <= x1
    requires (y - y0) * (x1 - x0) == (x - x0) * (y1 - y0)
    ensures y0 <= y <= y1
    ensures x == x0 ==> y == y0
    ensures x == x1 ==> y == y1
  {
    FactorSigns(x - x0, y1 - y0, y - y0, x1 - x0);
    assert (x1 - x) * (y1 - y0) == (y1 - y) * (x1 - x0);
    FactorSigns(x1 - x, y1 - y0, y1 - y, x1 - x0);
  }

  lemma SegmentMonotone(x: real, y: real, x': real, y': real, x0: real, y0: real, x1: real, y1: real)
    requires x0 < x1 && y0 <= y1 && x <= x'
    requires (y - y0) * (x1 - x0) == (x - x0) * (y1 - y0)
    requires (y' - y0) * (x1 - x0) == (x' - x0) * (y1 - y0)
    ensures y <= y'
  {
    assert (x' - x) * (y1 - y0) == (y' - y) * (x1 - x0);
    FactorSigns(x' - x, y1 - y0, y' - y, x1 - x0);
  }

  /** The polygon never falls; in particular there is one rate above each utilisation. */
  lemma {:induction false} CurveMonotone(curve: seq<Knot>, x: real, y: real, x': real, y': real)
    requires ValidCurve(curve) && OnCurve(curve, x, y) && OnCurve(curve, x', y') && x <= x'
    ensures y <= y'
  {
    var k: nat :| OnSegment(curve, k, x, y);
    var k': nat :| OnSegment(curve, k', x', y');
    if k == k' {
      SameSegment(curve, k, x, y, x', y');
    } else {
      SegmentFacts(curve, k, x, y);
      SegmentFacts(curve, k', x', y');
      DifferentSegments(curve, k, x, y, k', x', y');
    }
  }

  lemma {:induction false} SameSegment(curve: seq<Knot>, k: nat, x: real, y: real, x': real, y': real)
    requires ValidCurve(curve) && OnSegment(curve, k, x, y) && OnSegment(curve, k, x', y') && x <= x'
    ensures y <= y'
  {
    SegmentMonotone(x, y, x', y', curve[k - 1].0, curve[k - 1].1, curve[k].0, curve[k].1);
  }

  /** What the straight line says about the corners of its segment. */
  ghost predicate WithinSegment(curve: seq<Knot>, k: nat, x: real, y: real)
    requires 0 < k < |curve|
  {
    && curve[k - 1].0 <= x <= curve[k].0
    && curve[k - 1].1 <= y <= curve[k].1
    && (x == curve[k - 1].0 ==> y == curve[k - 1].1)
    && (x == curve[k].0 ==> y == curve[k].1)
  }

  lemma {:induction false} SegmentFacts(curve: seq<Knot>, k: nat, x: real, y: real)
    requires ValidCurve(curve) && OnSegment(curve, k, x, y)
    ensures WithinSegment(curve, k, x, y)
  {
    SegmentBounds(x, y, curve[k - 1].0, curve[k - 1].1, curve[k].0, curve[k].1);
  }

  lemma {:induction false} DifferentSegments(curve: seq<Knot>, k: nat, x: real, y: real, k': nat, x': real, y': real)
    requires ValidCurve(curve) && 0 < k < |curve| && 0 < k' < |curve| && k != k' && x <= x'
    requires WithinSegment(curve, k, x, y) && WithinSegment(curve, k', x', y')
    ensures y <= y'
  {
    if k < k' {
      assert k == k' - 1 || curve[k].1 <= curve[k' - 1].1;
    }
  }

  lemma {:induction false} CurveUnique(curve: seq<Knot>, x: real, y: real, y': real)
    requires ValidCurve(curve) && OnCurve(curve, x, y) && OnCurve(curve, x, y')
    ensures y == y'
  {
    CurveMonotone(curve, x, y, x, y');
    CurveMonotone(curve, x, y', x, y);
  }

  lemma {:induction false} KnotOnCurve(curve: seq<Knot>, i: nat)
    requires ValidCurve(curve) && i < |curve|
    ensures OnCurve(curve, curve[i].0, curve[i].1)
  {
    assert OnSegment(curve, if i == 0 then 1 else i, curve[i].0, curve[i].1);
  }

  // ---------------------------------------------------------------- main results

  /** On a valid curve getBorrowRate never throws, and what it returns lies on the polygon. */
  lemma {:induction false} RateOnCurve(curve: seq<Knot>, utilization: real)
    requires ValidCurve(curve) && 0.0 <= utilization
    ensures BorrowRate(utilization, curve).Ok?
    ensures OnCurve(curve, Clamp(utilization), BorrowRate(utilization, curve).value)
  {
    var u := Clamp(utilization);
    var k := FirstAtLeast(curve, u, 1);
    assert curve[|curve| - 1].0 == 1.0;
    if curve[k].0 == u {
      KnotOnCurve(curve, k);
    } else {
      assert curve[k - 1].0 < curve[k].0 && curve[k - 1].1 <= curve[k].1;
      InterpolateOnSegment(curve, k, u);
    }
  }

  lemma {:induction false} InterpolateOnSegment(curve: seq<Knot>, k: nat, u: real)
    requires 0 < k < |curve| && curve[k - 1].0 <= u <= curve[k].0 && curve[k - 1].0 < curve[k].0
    ensures var r := Interpolate(u, curve[k - 1].0, curve[k].0, curve[k - 1].1, curve[k].1);
            r.Ok? && OnSegment(curve, k, u, r.value)
  {
    SegmentPoint(u, curve[k - 1].0, curve[k - 1].1, curve[k].0, curve[k].1);
  }

  lemma SegmentPoint(x: real, x0: real, y0: real, x1: real, y1: real)
    requires x0 < x1
    ensures (y0 + (x - x0) * (y1 - y0) / (x1 - x0) - y0) * (x1 - x0) == (x - x0) * (y1 - y0)
  {
    QuotientTimes((x - x0) * (y1 - y0), x1 - x0);
  }

  /** It is the polygon: y is the returned rate exactly when (utilisation, y) lies on it. */
  lemma {:induction false} RateIsTheCurve(curve: seq<Knot>, utilization: real, y: real)
    requires ValidCurve(curve) && 0.0 <= utilization
    ensures BorrowRate(utilization, curve) == Ok(y) <==> OnCurve(curve, Clamp(utilization), y)
  {
    RateOnCurve(curve, utilization);
    if OnCurve(curve, Clamp(utilization), y) {
      CurveUnique(curve, Clamp(utilization), y, BorrowRate(utilization, curve).value);
    }
  }

  /** More utilisation never costs less. */
  lemma {:induction false} RateMonotone(curve: seq<Knot>, u: real, v: real)
    requires ValidCurve(curve) && 0.0 <= u <= v
    ensures BorrowRate(u, curve).Ok? && BorrowRate(v, curve).Ok?
    ensures BorrowRate(u, curve).value <= BorrowRate(v, curve).value
  {
    RateOnCurve(curve, u);
    RateOnCurve(curve, v);
    CurveMonotone(curve, Clamp(u), BorrowRate(u, curve).value, Clamp(v), BorrowRate(v, curve).value);
  }

  /** Every knot is hit. */
  lemma {:induction false} KnotsHit(curve: seq<Knot>)
    requires ValidCurve(curve)
    ensures forall i :: 0 <= i < |curve| ==> BorrowRate(curve[i].0, curve) == Ok(curve[i].1)
  {
    var last := |curve| - 1;
    forall i | 0 <= i < |curve| ensures BorrowRate(curve[i].0, curve) == Ok(curve[i].1) {
      KnotOnCurve(curve, i);
      assert i == last || curve[i].0 < curve[last].0;
      assert i == 0 || curve[0].0 < curve[i].0;
      RateIsTheCurve(curve, curve[i].0, curve[i].1);
    }
  }

  lemma {:induction false} RateClamped(curve: seq<Knot>, u: real)
    ensures BorrowRate(Clamp(u), curve) == BorrowRate(u, curve)
  {
    assert Clamp(Clamp(u)) == Clamp(u);
  }

  /** The rate stays between the first and the last, and from 100% on it is the last. */
  lemma {:induction false} RateRange(curve: seq<Knot>, u: real)
    requires ValidCurve(curve) && 0.0 <= u
    ensures BorrowRate(u, curve).Ok? && curve[0].1 <= BorrowRate(u, curve).value <= curve[|curve| - 1].1
    ensures u >= 1.0 ==> BorrowRate(u, curve) == Ok(curve[|curve| - 1].1)
  {
    KnotsHit(curve);
    RateMonotone(curve, curve[0].0, u);
    RateMonotone(curve, Clamp(u), curve[|curve| - 1].0);
    RateClamped(curve, u);
  }

  lemma {:induction false} RateBetween(curve: seq<Knot>, u: real)
    requires ValidCurve(curve) && 0.0 <= u
    ensures BorrowRate(u, curve).Ok? && 0.0 <= curve[0].1 <= BorrowRate(u, curve).value <= curve[|curve| - 1].1
  {
    RateRange(curve, u);
  }
}
