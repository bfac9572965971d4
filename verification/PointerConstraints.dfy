/** Pointer lock and confinement: ordered regions, clipping one motion at its
    first exit from a union of rectangles, sliding along edges, and the
    decision taken for every motion while a constraint is active. */
module PointerConstraints {
  import opened Wrappers
  import opened Geometry

  // ---------------------------------------------------------------- regions

  datatype RectangleKind = Add | Subtract
  datatype RegionOp = RegionOp(kind: RectangleKind, rect: Rect)

  /** Point p belongs to an ordered region when the last listed rectangle that
      covers it was added. */
  ghost predicate LastCoverAdds(ops: seq<RegionOp>, p: Point) {
    exists i :: 0 <= i < |ops| && ops[i].rect.Contains(p) && ops[i].kind.Add? &&
                forall j :: i < j < |ops| ==> !ops[j].rect.Contains(p)
  }

  ghost predicate InRegion(region: Option<seq<RegionOp>>, p: Point) {
    region.Some? ==> LastCoverAdds(region.value, p)
  }

  lemma LastCoverOfAppended(ops: seq<RegionOp>, op: RegionOp, p: Point)
    ensures LastCoverAdds(ops + [op], p) <==>
            if op.rect.Contains(p) then op.kind.Add? else LastCoverAdds(ops, p)
  {
    var all := ops + [op];
    assert all[|ops|] == op;
    assert forall i :: 0 <= i < |ops| ==> all[i] == ops[i];
    if op.rect.Contains(p) {
      if op.kind.Add? {
        assert all[|ops|].rect.Contains(p);
      }
    } else if LastCoverAdds(ops, p) {
      var i :| 0 <= i < |ops| && ops[i].rect.Contains(p) && ops[i].kind.Add? &&
               forall j :: i < j < |ops| ==> !ops[j].rect.Contains(p);
      assert all[i].rect.Contains(p);
    }
  }

  /** One operation of an ordered region, applied to what the earlier ones left. */
  lemma RegionStep(bounds: Rect, ops: seq<RegionOp>, k: nat, before: seq<Rect>, after: seq<Rect>, p: Point)
    requires k < |ops|
    requires InAny(before, p) <==> bounds.Contains(p) && LastCoverAdds(ops[..k], p)
    requires InAny(after, p) <==>
             if bounds.Contains(p) && ops[k].rect.Contains(p) then ops[k].kind.Add? else InAny(before, p)
    ensures InAny(after, p) <==> bounds.Contains(p) && LastCoverAdds(ops[..k + 1], p)
  {
    assert ops[..k + 1] == ops[..k] + [ops[k]];
    LastCoverOfAppended(ops[..k], ops[k], p);
  }

  method RegionRectangles(bounds: Rect, region: Option<seq<RegionOp>>) returns (rects: seq<Rect>)
    ensures forall p: Point :: InAny(rects, p) <==> bounds.Contains(p) && InRegion(region, p)
    ensures region.None? ==> rects == [bounds]
  {
    if region.None? {
      assert bounds in [bounds];
      return [bounds];
    }
    var ops := region.value;
    rects := [];
    for k := 0 to |ops|
      invariant forall p: Point :: InAny(rects, p) <==> bounds.Contains(p) && LastCoverAdds(ops[..k], p)
    {
      ghost var before := rects;
      var cut := Intersection(bounds, ops[k].rect);
      if cut.Some? {
        if ops[k].kind.Add? {
          rects := rects + [cut.value];
        } else {
          rects := SubtractFromAll(rects, cut.value);
        }
      }
      forall p: Point
        ensures InAny(rects, p) <==> bounds.Contains(p) && LastCoverAdds(ops[..k + 1], p)
      {
        assert InAny(before, p) <==> bounds.Contains(p) && LastCoverAdds(ops[..k], p);
        if cut.Some? {
          InAnyConcat(before, [cut.value], p);
          assert cut.value in [cut.value];
        }
        RegionStep(bounds, ops, k, before, rects, p);
      }
    }
    assert ops[..|ops|] == ops;
  }

  /** A constraint with no region of its own covers the whole input region. */
  method ConstraintRegion(input: seq<Rect>, region: Option<seq<RegionOp>>) returns (rects: seq<Rect>)
    ensures forall p: Point :: InAny(rects, p) <==> InAny(input, p) && InRegion(region, p)
    ensures region.None? ==> rects == input
  {
    rects := [];
    for k := 0 to |input|
      invariant region.None? ==> rects == input[..k]
      invariant forall p: Point :: InAny(rects, p) <==> InAny(input[..k], p) && InRegion(region, p)
    {
      var part := RegionRectangles(input[k], region);
      forall p: Point
        ensures InAny(rects + part, p) <==> InAny(input[..k + 1], p) && InRegion(region, p)
      {
        InAnyConcat(rects, part, p);
        assert input[..k + 1] == input[..k] + [input[k]];
        InAnyConcat(input[..k], [input[k]], p);
        assert input[k] in [input[k]];
      }
      rects := rects + part;
    }
    assert input[..|input|] == input;
  }

  // ------------------------------------------------- what clipping one motion means

  /** The point a fraction s of the way along delta. */
  function At(from: Point, delta: Point, s: real): Point {
    Point(from.x + delta.x * s, from.y + delta.y * s)
  }

  /** A moving coordinate may rest on the far edge, a stationary one may not. */
  predicate AxisTouches(p: real, d: real, lo: real, hi: real, s: real) {
    if d == 0.0 then lo <= p < hi else lo <= p + d * s <= hi
  }

  predicate Touches(r: Rect, from: Point, delta: Point, s: real) {
    && AxisTouches(from.x, delta.x, r.x as real, r.Right() as real, s)
    && AxisTouches(from.y, delta.y, r.y as real, r.Bottom() as real, s)
  }

  ghost predicate TouchesAny(region: seq<Rect>, from: Point, delta: Point, s: real) {
    exists r :: r in region && Touches(r, from, delta, s)
  }

  ghost predicate CoveredUpTo(region: seq<Rect>, from: Point, delta: Point, e: real) {
    forall s: real {:trigger TouchesAny(region, from, delta, s)} :: 0.0 <= s <= e ==> TouchesAny(region, from, delta, s)
  }

  /** e is where the motion first leaves the union: the greatest fraction up
      to which every point of it touches some rectangle (0 when not even the
      start does). */
  ghost predicate IsExit(region: seq<Rect>, from: Point, delta: Point, e: real) {
    && 0.0 <= e <= 1.0
    && (e > 0.0 ==> CoveredUpTo(region, from, delta, e))
    && forall f: real {:trigger CoveredUpTo(region, from, delta, f)} ::
         e < f <= 1.0 ==> !CoveredUpTo(region, from, delta, f)
  }

  const Origin := Point(0.0, 0.0)

  /** One protocol unit (1/256 pixel) of the faster axis, as a fraction of the motion. */
  function Inset(delta: Point): real
    requires delta != Origin
  {
    (1.0 / 256.0) / RMax(RAbs(delta.x), RAbs(delta.y))
  }

  /** The whole motion if it never leaves, else the exit point moved back by
      one protocol unit of the faster axis, never behind the start. */
  ghost predicate IsClipped(region: seq<Rect>, from: Point, to: Point, out: Point) {
    var delta := to.Minus(from);
    if delta == Origin then out == from
    else exists e: real :: IsExit(region, from, delta, e) &&
                           out == if e == 1.0 && InAny(region, to) then to
                                  else At(from, delta, RMax(e - Inset(delta), 0.0))
  }

  // ------------------------------------------------------- the interval sweep

  datatype Interval = Interval(enter: real, leave: real)

  predicate SortedByEnter(s: seq<Interval>) {
    forall i, j :: 0 <= i < j < |s| ==> s[i].enter <= s[j].enter
  }

  function InsertByEnter(s: seq<Interval>, v: Interval): (r: seq<Interval>)
    requires SortedByEnter(s)
    ensures SortedByEnter(r)
    ensures forall u :: u in r <==> u == v || u in s
  {
    if s == [] then [v]
    else if v.enter < s[0].enter then [v] + s
    else
      var rest := InsertByEnter(s[1..], v);
      assert forall u :: u in s[1..] ==> s[0].enter <= u.enter;
      assert forall i :: 0 <= i < |rest| ==> rest[i] in rest && s[0].enter <= rest[i].enter;
      [s[0]] + rest
  }

  /** The library sort: ascending by entry. */
  function SortIntervals(s: seq<Interval>): (r: seq<Interval>)
    ensures SortedByEnter(r)
    ensures forall u :: u in r <==> u in s
  {
    if s == [] then []
    else
      assert s == s[..|s| - 1] + [s[|s| - 1]];
      InsertByEnter(SortIntervals(s[..|s| - 1]), s[|s| - 1])
  }

  datatype Axis = Axis(p: real, d: real, lo: real, hi: real)

  predicate Within(i: Interval, s: real) { i.enter <= s <= i.leave }

  lemma QuotientBounds(p: real, d: real, v: real, s: real)
    requires d != 0.0
    ensures d > 0.0 ==> ((v <= p + d * s) <==> ((v - p) / d <= s))
    ensures d < 0.0 ==> ((v <= p + d * s) <==> (s <= (v - p) / d))
    ensures d > 0.0 ==> ((p + d * s <= v) <==> (s <= (v - p) / d))
    ensures d < 0.0 ==> ((p + d * s <= v) <==> ((v - p) / d <= s))
  {
    var q := (v - p) / d;
    assert q * d == v - p;
    assert (s - q) * d == d * s - (v - p);
    if d > 0.0 {
      assert s < q ==> (s - q) * d < 0.0;
      assert s > q ==> (s - q) * d > 0.0;
    } else {
      assert s < q ==> (s - q) * d > 0.0;
      assert s > q ==> (s - q) * d < 0.0;
    }
  }

  lemma SignOfProduct(a: real, b: real)
    requires a < 0.0
    ensures b > 0.0 ==> a * b < 0.0
    ensures b < 0.0 ==> a * b > 0.0
  {
  }

  /** Two quotients per moving axis bound the fractions at which it is inside. */
  lemma AxisInterval(a: Axis, s: real)
    requires a.lo <= a.hi && a.d != 0.0
    ensures AxisTouches(a.p, a.d, a.lo, a.hi, s) <==>
            RMin((a.lo - a.p) / a.d, (a.hi - a.p) / a.d) <= s <= RMax((a.lo - a.p) / a.d, (a.hi - a.p) / a.d)
  {
    QuotientBounds(a.p, a.d, a.lo, s);
    QuotientBounds(a.p, a.d, a.hi, s);
    var l, h := (a.lo - a.p) / a.d, (a.hi - a.p) / a.d;
    assert l * a.d == a.lo - a.p && h * a.d == a.hi - a.p;
    assert (h - l) * a.d == a.hi - a.lo >= 0.0;
    if a.d > 0.0 {
      assert l <= h by { if h < l { SignOfProduct(h - l, a.d); } }
    } else {
      assert h <= l by { if l < h { SignOfProduct(l - h, a.d); } }
    }
  }

  /** The fractions of the motion during which one rectangle is touched. */
  method RectInterval(r: Rect, from: Point, delta: Point) returns (i: Interval)
    ensures 0.0 <= i.enter && i.leave <= 1.0
    ensures forall s: real :: Within(i, s) <==> 0.0 <= s <= 1.0 && Touches(r, from, delta, s)
  {
    var enter, leave := 0.0, 1.0;
    var axes := [Axis(from.x, delta.x, r.x as real, r.Right() as real),
                 Axis(from.y, delta.y, r.y as real, r.Bottom() as real)];
    for k := 0 to 2
      invariant 0.0 <= enter && leave <= 1.0
      invariant forall s: real :: Within(Interval(enter, leave), s) <==>
                                  (0.0 <= s <= 1.0 &&
                                   (k > 0 ==> AxisTouches(axes[0].p, axes[0].d, axes[0].lo, axes[0].hi, s)) &&
                                   (k > 1 ==> AxisTouches(axes[1].p, axes[1].d, axes[1].lo, axes[1].hi, s)))
    {
      var axis := axes[k];
      ghost var before := Interval(enter, leave);
      if axis.d == 0.0 {
        if axis.p < axis.lo || axis.p >= axis.hi {
          leave := -1.0;
        }
      } else {
        var a, b := (axis.lo - axis.p) / axis.d, (axis.hi - axis.p) / axis.d;
        enter := RMax(enter, RMin(a, b));
        leave := RMin(leave, RMax(a, b));
      }
      forall s: real
        ensures Within(Interval(enter, leave), s) <==>
                Within(before, s) && AxisTouches(axis.p, axis.d, axis.lo, axis.hi, s)
      {
        if axis.d != 0.0 {
          AxisInterval(axis, s);
        }
      }
    }
    i := Interval(enter, leave);
  }

  /** The sweep's invariant once it stops: what it covered, and that the next
      uncovered fraction lies just behind. */
  lemma SweepStopsAtExit(region: seq<Rect>, from: Point, delta: Point, e: real, bound: real)
    requires 0.0 <= e <= 1.0 && e < bound
    requires e > 0.0 ==> CoveredUpTo(region, from, delta, e)
    requires forall s: real :: e < s <= 1.0 && s < bound ==> !TouchesAny(region, from, delta, s)
    ensures IsExit(region, from, delta, e)
  {
    forall f: real | e < f <= 1.0
      ensures !CoveredUpTo(region, from, delta, f)
    {
      var s := if f < bound then f else (e + RMin(bound, 1.0)) / 2.0;
      assert e < s <= f;
      assert !TouchesAny(region, from, delta, s);
    }
  }

  method ClipMotion(from: Point, to: Point, region: seq<Rect>) returns (out: Point)
    ensures IsClipped(region, from, to, out)
  {
    var delta := to.Minus(from);
    if delta == Origin {
      return from;
    }
    var intervals: seq<Interval> := [];
    for k := 0 to |region|
      invariant forall i :: i in intervals ==> 0.0 <= i.enter <= i.leave <= 1.0
      invariant forall i, s: real :: i in intervals && Within(i, s) ==> TouchesAny(region, from, delta, s)
      invariant forall j, s: real :: 0 <= j < k && 0.0 <= s <= 1.0 && Touches(region[j], from, delta, s) ==>
                                       exists i :: i in intervals && Within(i, s)
    {
      var i := RectInterval(region[k], from, delta);
      ghost var before := intervals;
      if i.enter <= i.leave {
        intervals := intervals + [i];
        assert i in intervals;
      }
      assert forall i' :: i' in before ==> i' in intervals;
      forall s: real | Within(i, s)
        ensures TouchesAny(region, from, delta, s)
      {
        assert region[k] in region;
      }
      forall j, s: real | 0 <= j < k + 1 && 0.0 <= s <= 1.0 && Touches(region[j], from, delta, s)
        ensures exists i' :: i' in intervals && Within(i', s)
      {
        if j < k {
          var i' :| i' in before && Within(i', s);
          assert i' in intervals;
        } else {
          assert Within(i, s);
        }
      }
    }
    var sorted := SortIntervals(intervals);
    var end := Sweep(region, from, delta, sorted);
    var at := At(from, delta, end);
    if end == 1.0 && RegionHolds(region, at) {
      assert at == to;
      return at;
    }
    out := At(from, delta, RMax(end - Inset(delta), 0.0));
    if end == 1.0 {
      assert at == to;
    }
  }

  predicate RegionHolds(region: seq<Rect>, p: Point)
    ensures RegionHolds(region, p) <==> InAny(region, p)
  {
    if region == [] then false
    else
      assert region == [region[0]] + region[1..];
      region[0].Contains(p) || RegionHolds(region[1..], p)
  }

  /** The loop over the sorted intervals: extends the reached fraction until
      the next interval starts beyond it. */
  method Sweep(ghost region: seq<Rect>, ghost from: Point, ghost delta: Point, sorted: seq<Interval>)
    returns (end: real)
    requires SortedByEnter(sorted)
    requires forall i :: i in sorted ==> 0.0 <= i.enter <= i.leave <= 1.0
    requires forall i, s: real :: i in sorted && Within(i, s) ==> TouchesAny(region, from, delta, s)
    requires forall s: real :: 0.0 <= s <= 1.0 && TouchesAny(region, from, delta, s) ==>
                                 exists i :: i in sorted && Within(i, s)
    ensures IsExit(region, from, delta, end)
  {
    end := 0.0;
    var k := 0;
    while k < |sorted|
      invariant 0 <= k <= |sorted|
      invariant 0.0 <= end <= 1.0
      invariant end > 0.0 ==> CoveredUpTo(region, from, delta, end)
      invariant forall j :: 0 <= j < k ==> sorted[j].leave <= end
    {
      if sorted[k].enter > end {
        forall s: real | end < s <= 1.0 && s < sorted[k].enter
          ensures !TouchesAny(region, from, delta, s)
        {
          forall i | i in sorted
            ensures !Within(i, s)
          {
            var j :| 0 <= j < |sorted| && sorted[j] == i;
            assert j < k || sorted[k].enter <= sorted[j].enter;
          }
        }
        SweepStopsAtExit(region, from, delta, end, sorted[k].enter);
        return;
      }
      ghost var before := end;
      end := RMax(end, sorted[k].leave);
      if end > 0.0 {
        forall s: real | 0.0 <= s <= end
          ensures TouchesAny(region, from, delta, s)
        {
          assert sorted[k] in sorted;
          if s > before || before == 0.0 {
            assert Within(sorted[k], s);
          }
        }
      }
      k := k + 1;
    }
    SweepStopsAtExit(region, from, delta, end, 2.0);
  }

  // ------------------------------------------------- what a clipped motion keeps

  /** Every point between a and b belongs to some rectangle, far edges included. */
  ghost predicate PathCovered(region: seq<Rect>, a: Point, b: Point) {
    forall s: real {:trigger At(a, b.Minus(a), s)} ::
      0.0 <= s <= 1.0 ==> InAnyClosed(region, At(a, b.Minus(a), s))
  }

  lemma AxisTouchIsClosed(p: real, d: real, lo: real, hi: real, s: real)
    requires AxisTouches(p, d, lo, hi, s)
    ensures lo <= p + d * s <= hi
  {
    if d == 0.0 {
      assert d * s == 0.0;
    }
  }

  lemma TouchIsClosed(region: seq<Rect>, from: Point, delta: Point, s: real)
    requires TouchesAny(region, from, delta, s)
    ensures InAnyClosed(region, At(from, delta, s))
  {
    hide AxisTouches;
    var r :| r in region && Touches(r, from, delta, s);
    AxisTouchIsClosed(from.x, delta.x, r.x as real, r.Right() as real, s);
    AxisTouchIsClosed(from.y, delta.y, r.y as real, r.Bottom() as real, s);
    assert r.ContainsClosed(At(from, delta, s));
  }

  lemma InsideTouches(region: seq<Rect>, from: Point, delta: Point, s: real)
    requires InAny(region, At(from, delta, s))
    ensures TouchesAny(region, from, delta, s)
  {
    var r :| r in region && r.Contains(At(from, delta, s));
    assert Touches(r, from, delta, s);
  }

  lemma ScaledFraction(from: Point, delta: Point, t: real, s: real)
    requires 0.0 <= t && 0.0 <= s <= 1.0
    ensures 0.0 <= t * s <= t
    ensures At(from, At(from, delta, t).Minus(from), s) == At(from, delta, t * s)
  {
  }

  lemma InsetIsPositive(delta: Point)
    requires delta != Origin
    ensures Inset(delta) > 0.0
  {
  }

  lemma AtEnds(from: Point, to: Point)
    ensures At(from, to.Minus(from), 0.0) == from
    ensures At(from, to.Minus(from), 1.0) == to
  {
  }

  /** The fraction at which a clipped motion ends, and where it would have left. */
  lemma ClippedFraction(region: seq<Rect>, from: Point, to: Point, out: Point) returns (t: real, e: real)
    requires IsClipped(region, from, to, out) && from != to
    ensures IsExit(region, from, to.Minus(from), e) && 0.0 <= t <= e
    ensures out == At(from, to.Minus(from), t)
    ensures (out == to && e == 1.0 && InAny(region, to)) || (t == 0.0 && out == from) || 0.0 < t < e
    ensures e == 1.0 && InAny(region, to) ==> out == to
    ensures e < 1.0 || !InAny(region, to) ==> t == RMax(e - Inset(to.Minus(from)), 0.0)
  {
    var delta := to.Minus(from);
    AtEnds(from, to);
    InsetIsPositive(delta);
    e :| IsExit(region, from, delta, e) &&
         out == if e == 1.0 && InAny(region, to) then to
                else At(from, delta, RMax(e - Inset(delta), 0.0));
    t := if e == 1.0 && InAny(region, to) then 1.0 else RMax(e - Inset(delta), 0.0);
  }

  lemma EmptyMotion(region: seq<Rect>, from: Point, out: Point)
    requires IsClipped(region, from, from, out)
    ensures out == from
  {
  }

  /** A clipped motion ends on the proposed segment and never leaves the union. */
  lemma ClippedStaysCovered(region: seq<Rect>, from: Point, to: Point, out: Point)
    requires IsClipped(region, from, to, out) && InAnyClosed(region, from)
    ensures PathCovered(region, from, out)
    ensures exists t: real {:trigger At(from, to.Minus(from), t)} ::
              0.0 <= t <= 1.0 && out == At(from, to.Minus(from), t)
  {
    hide IsClipped, Inset;
    var delta := to.Minus(from);
    AtEnds(from, to);
    if from == to {
      EmptyMotion(region, from, out);
      CoveredFraction(region, from, delta, 0.0);
    } else {
      var t, e := ClippedFraction(region, from, to, out);
      assert t > 0.0 ==> CoveredUpTo(region, from, delta, t);
      CoveredFraction(region, from, delta, t);
    }
  }

  lemma CoveredFraction(region: seq<Rect>, from: Point, delta: Point, t: real)
    requires 0.0 <= t && InAnyClosed(region, from)
    requires t > 0.0 ==> CoveredUpTo(region, from, delta, t)
    ensures PathCovered(region, from, At(from, delta, t))
  {
    hide TouchesAny, InAnyClosed;
    forall s: real | 0.0 <= s <= 1.0
      ensures InAnyClosed(region, At(from, At(from, delta, t).Minus(from), s))
    {
      ScaledFraction(from, delta, t, s);
      if t * s == 0.0 {
        assert At(from, delta, 0.0) == from;
      } else {
        assert TouchesAny(region, from, delta, t * s);
        TouchIsClosed(region, from, delta, t * s);
      }
    }
  }

  /** A motion that is inside all along is not clipped at all. */
  lemma ClippedIsComplete(region: seq<Rect>, from: Point, to: Point, out: Point)
    requires IsClipped(region, from, to, out)
    requires forall s: real {:trigger At(from, to.Minus(from), s)} ::
               0.0 <= s <= 1.0 ==> InAny(region, At(from, to.Minus(from), s))
    ensures out == to
  {
    var delta := to.Minus(from);
    if delta != Origin {
      forall s: real | 0.0 <= s <= 1.0
        ensures TouchesAny(region, from, delta, s)
      {
        InsideTouches(region, from, delta, s);
      }
      assert CoveredUpTo(region, from, delta, 1.0);
      assert At(from, delta, 1.0) == to;
    }
  }

  /** The clipping rule determines its result. */
  lemma ClippedIsUnique(region: seq<Rect>, from: Point, to: Point, out1: Point, out2: Point)
    requires IsClipped(region, from, to, out1) && IsClipped(region, from, to, out2)
    ensures out1 == out2
  {
    var delta := to.Minus(from);
    if delta != Origin {
      var e1: real :| IsExit(region, from, delta, e1) &&
                      out1 == if e1 == 1.0 && InAny(region, to) then to
                              else At(from, delta, RMax(e1 - Inset(delta), 0.0));
      var e2: real :| IsExit(region, from, delta, e2) &&
                      out2 == if e2 == 1.0 && InAny(region, to) then to
                              else At(from, delta, RMax(e2 - Inset(delta), 0.0));
      assert !(e1 < e2) && !(e2 < e1);
    }
  }

  /** On one rectangle the result stays in the half-open rectangle. */
  lemma ClippedOnOneRectangle(r: Rect, from: Point, to: Point, out: Point)
    requires IsClipped([r], from, to, out) && r.Contains(from)
    ensures r.Contains(out)
  {
    hide IsClipped;
    hide Inset;
    if from == to {
      EmptyMotion([r], from, out);
    } else {
      var delta := to.Minus(from);
      var t, e := ClippedFraction([r], from, to, out);
      if 0.0 < t < e {
        InsideBeforeExit(r, from, delta, t, e);
      }
    }
  }

  lemma TouchesOne(r: Rect, from: Point, delta: Point, s: real)
    ensures TouchesAny([r], from, delta, s) <==> Touches(r, from, delta, s)
  {
    assert r in [r];
  }

  lemma InsideBeforeExit(r: Rect, from: Point, delta: Point, t: real, e: real)
    requires r.Contains(from) && 0.0 < t < e && CoveredUpTo([r], from, delta, e)
    ensures r.Contains(At(from, delta, t))
  {
    assert Touches(r, from, delta, t) && Touches(r, from, delta, e) by {
      assert TouchesAny([r], from, delta, t) && TouchesAny([r], from, delta, e);
      hide Touches;
      TouchesOne(r, from, delta, t);
      TouchesOne(r, from, delta, e);
    }
    hide CoveredUpTo;
    InsideBeforeTouch(r, from, delta, t, e);
  }

  lemma InsideBeforeTouch(r: Rect, from: Point, delta: Point, t: real, e: real)
    requires r.Contains(from) && 0.0 < t < e && Touches(r, from, delta, t) && Touches(r, from, delta, e)
    ensures r.Contains(At(from, delta, t))
  {
    hide AxisTouches;
    StrictlyBeforeExit(from.x, delta.x, r.x as real, r.Right() as real, t, e);
    StrictlyBeforeExit(from.y, delta.y, r.y as real, r.Bottom() as real, t, e);
  }

  lemma StrictlyBeforeExit(p: real, d: real, lo: real, hi: real, t: real, e: real)
    requires lo <= p < hi && 0.0 <= t < e
    requires AxisTouches(p, d, lo, hi, t) && AxisTouches(p, d, lo, hi, e)
    ensures lo <= p + d * t < hi
  {
    if d > 0.0 {
      SignOfProduct(t - e, d);
      assert d * t < d * e;
    } else {
      assert d * t <= 0.0;
    }
  }

  // ----------------------------------------------------------- sliding confinement

  /** The motion clipped, then what is left of it horizontally, then vertically. */
  method ConfineMotion(current: Point, proposed: Point, region: seq<Rect>) returns (out: Point)
    ensures IsConfined(region, current, proposed, out)
  {
    var clipped := ClipMotion(current, proposed, region);
    var horizontal := ClipMotion(clipped, Point(proposed.x, clipped.y), region);
    out := ClipMotion(horizontal, Point(horizontal.x, proposed.y), region);
    assert ConfinedVia(region, current, proposed, clipped, horizontal, out);
  }

  ghost predicate ConfinedVia(region: seq<Rect>, current: Point, proposed: Point,
                              clipped: Point, horizontal: Point, out: Point)
  {
    && IsClipped(region, current, proposed, clipped)
    && IsClipped(region, clipped, Point(proposed.x, clipped.y), horizontal)
    && IsClipped(region, horizontal, Point(horizontal.x, proposed.y), out)
  }

  ghost predicate IsConfined(region: seq<Rect>, current: Point, proposed: Point, out: Point) {
    exists clipped, horizontal :: ConfinedVia(region, current, proposed, clipped, horizontal, out)
  }

  /** No hole and no gap between islands is crossed by any of the three legs. */
  lemma ConfinedPathIsCovered(region: seq<Rect>, current: Point, proposed: Point,
                              clipped: Point, horizontal: Point, out: Point)
    requires InAnyClosed(region, current)
    requires ConfinedVia(region, current, proposed, clipped, horizontal, out)
    ensures PathCovered(region, current, clipped)
    ensures PathCovered(region, clipped, horizontal)
    ensures PathCovered(region, horizontal, out)
    ensures InAnyClosed(region, out)
  {
    ClippedStaysCovered(region, current, proposed, clipped);
    PathEnd(region, current, clipped);
    ClippedStaysCovered(region, clipped, Point(proposed.x, clipped.y), horizontal);
    PathEnd(region, clipped, horizontal);
    ClippedStaysCovered(region, horizontal, Point(horizontal.x, proposed.y), out);
    PathEnd(region, horizontal, out);
  }

  lemma PathEnd(region: seq<Rect>, a: Point, b: Point)
    requires PathCovered(region, a, b)
    ensures InAnyClosed(region, b)
  {
    assert At(a, b.Minus(a), 1.0) == b;
  }

  /** A motion that is inside all along is taken as proposed. */
  lemma ConfinedIsComplete(region: seq<Rect>, current: Point, proposed: Point, out: Point)
    requires IsConfined(region, current, proposed, out)
    requires forall s: real {:trigger At(current, proposed.Minus(current), s)} ::
               0.0 <= s <= 1.0 ==> InAny(region, At(current, proposed.Minus(current), s))
    ensures out == proposed
  {
    var clipped, horizontal :| ConfinedVia(region, current, proposed, clipped, horizontal, out);
    ClippedIsComplete(region, current, proposed, clipped);
  }

  function Clamp(v: real, lo: real, hi: real): real { RMin(RMax(v, lo), hi) }

  /** A confined coordinate against its proposal: the proposal itself when it
      is inside, else within one protocol unit of the clamped proposal. */
  predicate NearClamp(out: real, to: real, lo: real, hi: real) {
    && RAbs(out - Clamp(to, lo, hi)) <= 1.0 / 256.0
    && (lo <= to < hi ==> out == to)
  }

  ghost predicate NearClampedPoint(r: Rect, out: Point, to: Point) {
    && NearClamp(out.x, to.x, r.x as real, r.Right() as real)
    && NearClamp(out.y, to.y, r.y as real, r.Bottom() as real)
  }

  /** One axis of a single rectangle, moving along that axis only: the
      proposed coordinate if it is inside, else within one protocol unit of
      the edge it was pushed against. */
  lemma AxisMove(r: Rect, from: Point, to: Point, out: Point)
    requires r.Contains(from) && IsClipped([r], from, to, out)
    requires from.x == to.x || from.y == to.y
    ensures NearClampedPoint(r, out, to)
  {
    hide IsClipped, Inset, NearClampedPoint;
    if from == to {
      EmptyMotion([r], from, out);
      RestIsNearClamp(r, from);
      return;
    }
    var t, e := ClippedFraction([r], from, to, out);
    if r.Contains(to) {
      WholeAxisMove(r, from, to);
      assert r in [r];
      RestIsNearClamp(r, to);
    } else {
      PushedAgainstEdge(r, from, to, t, e);
    }
  }

  lemma RestIsNearClamp(r: Rect, p: Point)
    requires r.Contains(p)
    ensures NearClampedPoint(r, p, p)
  {
  }

  lemma PushedAgainstEdge(r: Rect, from: Point, to: Point, t: real, e: real)
    requires r.Contains(from) && !r.Contains(to) && (from.x == to.x || from.y == to.y)
    requires from != to && 0.0 <= e
    requires IsExit([r], from, to.Minus(from), e) && t == RMax(e - Inset(to.Minus(from)), 0.0)
    ensures NearClampedPoint(r, At(from, to.Minus(from), t), to)
  {
    hide *;
    var delta := to.Minus(from);
    AtEnds(from, to);
    ParallelMotion(from, to);
    OutsideAtEnd(r, from, delta);
    SingleAxisExit(r, from, delta, e);
    InsetAlongAxis(r, from, delta);
    AlongAxis(r, from, to, t);
    var out := At(from, delta, t);
    var moved, goal := if from.x != to.x then out.x else out.y, if from.x != to.x then to.x else to.y;
    EdgeMove(AxisOf(r, from, delta), t, e, moved, goal);
    MoveAlongAxis(r, from, to, out);
  }

  lemma ParallelMotion(from: Point, to: Point)
    requires from != to && (from.x == to.x || from.y == to.y)
    ensures to.Minus(from) != Origin
    ensures to.Minus(from).x == 0.0 || to.Minus(from).y == 0.0
  {
  }

  /** The moving axis of a motion parallel to an axis. */
  function AxisOf(r: Rect, from: Point, delta: Point): Axis {
    if delta.x != 0.0 then Axis(from.x, delta.x, r.x as real, r.Right() as real)
    else Axis(from.y, delta.y, r.y as real, r.Bottom() as real)
  }

  function Edge(a: Axis): real { if a.d > 0.0 then a.hi else a.lo }

  /** Only the moving coordinate changes. */
  lemma MoveAlongAxis(r: Rect, from: Point, to: Point, out: Point)
    requires r.Contains(from) && (from.x == to.x || from.y == to.y)
    requires if from.x != to.x then out.y == to.y && NearClamp(out.x, to.x, r.x as real, r.Right() as real)
             else out.x == to.x && NearClamp(out.y, to.y, r.y as real, r.Bottom() as real)
    ensures NearClampedPoint(r, out, to)
  {
    InsideIsNearClamp(from.x, r.x as real, r.Right() as real);
    InsideIsNearClamp(from.y, r.y as real, r.Bottom() as real);
  }

  lemma AlongAxis(r: Rect, from: Point, to: Point, t: real)
    requires from.x == to.x || from.y == to.y
    ensures var a, out := AxisOf(r, from, to.Minus(from)), At(from, to.Minus(from), t);
            if from.x != to.x
            then out.y == to.y && out.x == a.p + a.d * t && to.x == a.p + a.d &&
                 a.lo == r.x as real && a.hi == r.Right() as real
            else out.x == to.x && out.y == a.p + a.d * t && to.y == a.p + a.d &&
                 a.lo == r.y as real && a.hi == r.Bottom() as real
  {
  }

  lemma InsideIsNearClamp(v: real, lo: real, hi: real)
    ensures lo <= v < hi ==> NearClamp(v, v, lo, hi)
  {
  }

  lemma EdgeMove(a: Axis, t: real, e: real, moved: real, goal: real)
    requires a.lo <= a.p < a.hi && a.d != 0.0
    requires 0.0 <= e && a.p + a.d * e == Edge(a) && t == RMax(e - (1.0 / 256.0) / RAbs(a.d), 0.0)
    requires (a.d > 0.0 ==> a.p + a.d >= a.hi) && (a.d < 0.0 ==> a.p + a.d < a.lo)
    requires moved == a.p + a.d * t && goal == a.p + a.d
    ensures NearClamp(moved, goal, a.lo, a.hi)
  {
    var inset := (1.0 / 256.0) / RAbs(a.d);
    InsetLength(a, e, inset);
    assert Clamp(a.p + a.d, a.lo, a.hi) == Edge(a);
  }

  lemma WholeAxisMove(r: Rect, from: Point, to: Point)
    requires r.Contains(from) && r.Contains(to) && from != to
    ensures CoveredUpTo([r], from, to.Minus(from), 1.0)
  {
    var delta := to.Minus(from);
    forall s: real | 0.0 <= s <= 1.0
      ensures TouchesAny([r], from, delta, s)
    {
      BetweenEnds(from.x, delta.x, r.x as real, r.Right() as real, s);
      BetweenEnds(from.y, delta.y, r.y as real, r.Bottom() as real, s);
      assert Touches(r, from, delta, s);
      assert r in [r];
    }
  }

  lemma BetweenEnds(p: real, d: real, lo: real, hi: real, s: real)
    requires 0.0 <= s <= 1.0 && lo <= p < hi && lo <= p + d < hi
    ensures AxisTouches(p, d, lo, hi, s)
  {
    FractionOf(d, s);
  }

  lemma FractionOf(d: real, s: real)
    requires 0.0 <= s <= 1.0
    ensures d >= 0.0 ==> 0.0 <= d * s <= d
    ensures d <= 0.0 ==> d <= d * s <= 0.0
  {
    assert d * s - d == d * (s - 1.0);
  }

  /** Pushed out of a single rectangle along one axis, the exit is the edge itself. */
  lemma SingleAxisExit(r: Rect, from: Point, delta: Point, e: real)
    requires r.Contains(from) && IsExit([r], from, delta, e) && !r.Contains(At(from, delta, 1.0))
    requires delta != Origin && (delta.x == 0.0 || delta.y == 0.0)
    ensures var a := AxisOf(r, from, delta);
            && a.p + a.d * e == Edge(a)
            && (a.d > 0.0 ==> a.p + a.d >= a.hi)
            && (a.d < 0.0 ==> a.p + a.d < a.lo)
  {
    hide Touches, AxisTouches, At, TouchesAny;
    var a := AxisOf(r, from, delta);
    OutsideAtEnd(r, from, delta);
    var q := AxisExit(a);
    forall s: real | 0.0 <= s <= 1.0
      ensures TouchesAny([r], from, delta, s) <==> s <= q
    {
      SingleAxisTouch(r, from, delta, s);
    }
    assert CoveredUpTo([r], from, delta, q);
    assert e >= q;
    assert e > q ==> TouchesAny([r], from, delta, e);
  }

  lemma OutsideAtEnd(r: Rect, from: Point, delta: Point)
    requires r.Contains(from) && !r.Contains(At(from, delta, 1.0))
    requires delta != Origin && (delta.x == 0.0 || delta.y == 0.0)
    ensures var a := AxisOf(r, from, delta);
            a.lo <= a.p < a.hi && a.d != 0.0 && !(a.lo <= a.p + a.d < a.hi)
  {
  }

  /** Where a coordinate that starts inside and ends outside meets its edge. */
  lemma AxisExit(a: Axis) returns (q: real)
    requires a.lo <= a.p < a.hi && a.d != 0.0 && !(a.lo <= a.p + a.d < a.hi)
    ensures 0.0 <= q <= 1.0 && a.p + a.d * q == Edge(a)
    ensures a.d > 0.0 ==> a.p + a.d >= a.hi
    ensures a.d < 0.0 ==> a.p + a.d < a.lo
    ensures forall s: real :: 0.0 <= s <= 1.0 ==> (AxisTouches(a.p, a.d, a.lo, a.hi, s) <==> s <= q)
  {
    q := (Edge(a) - a.p) / a.d;
    assert q * a.d == Edge(a) - a.p;
    QuotientBounds(a.p, a.d, Edge(a), 1.0);
    QuotientBounds(a.p, a.d, Edge(a), 0.0);
    forall s: real | 0.0 <= s <= 1.0
      ensures AxisTouches(a.p, a.d, a.lo, a.hi, s) <==> s <= q
    {
      QuotientBounds(a.p, a.d, Edge(a), s);
      FractionOf(a.d, s);
    }
  }

  lemma SingleAxisTouch(r: Rect, from: Point, delta: Point, s: real)
    requires r.Contains(from) && delta != Origin && (delta.x == 0.0 || delta.y == 0.0)
    ensures TouchesAny([r], from, delta, s) <==>
            var a := AxisOf(r, from, delta); AxisTouches(a.p, a.d, a.lo, a.hi, s)
  {
    var a := AxisOf(r, from, delta);
    assert r in [r];
    assert Touches(r, from, delta, s) <==> AxisTouches(a.p, a.d, a.lo, a.hi, s);
  }

  lemma InsetAlongAxis(r: Rect, from: Point, delta: Point)
    requires delta != Origin && (delta.x == 0.0 || delta.y == 0.0)
    ensures Inset(delta) == (1.0 / 256.0) / RAbs(AxisOf(r, from, delta).d)
  {
  }

  lemma InsetLength(a: Axis, e: real, inset: real)
    requires a.d != 0.0 && 0.0 <= e && inset == (1.0 / 256.0) / RAbs(a.d) && a.p + a.d * e == Edge(a)
    ensures RAbs(a.p + a.d * RMax(e - inset, 0.0) - Edge(a)) <= 1.0 / 256.0
  {
    assert inset * RAbs(a.d) == 1.0 / 256.0;
    var step := RMin(e, inset);
    FractionBelow(RAbs(a.d), step, inset);
    AbsOfProduct(a.d, step);
    assert a.d * (e - step) == a.d * e - a.d * step;
  }

  lemma AbsOfProduct(d: real, s: real)
    requires 0.0 <= s
    ensures RAbs(d * s) == RAbs(d) * s
  {
    if d < 0.0 {
      assert (-d) * s == -(d * s);
    }
  }

  lemma FractionBelow(d: real, e: real, f: real)
    requires 0.0 <= d && 0.0 <= e <= f
    ensures 0.0 <= d * e <= d * f
  {
  }

  /** On one rectangle, sliding confinement is the per-axis clamp up to one
      protocol unit, exact on every axis whose proposed coordinate is inside,
      and the result is inside the half-open rectangle. */
  lemma ConfinedIsClampOnOneRectangle(r: Rect, current: Point, proposed: Point, out: Point)
    requires r.Contains(current) && IsConfined([r], current, proposed, out)
    ensures r.Contains(out)
    ensures NearClampedPoint(r, out, proposed)
  {
    var clipped, horizontal :| ConfinedVia([r], current, proposed, clipped, horizontal, out);
    ClippedOnOneRectangle(r, current, proposed, clipped);
    ClippedOnOneRectangle(r, clipped, Point(proposed.x, clipped.y), horizontal);
    ClippedOnOneRectangle(r, horizontal, Point(horizontal.x, proposed.y), out);
    AxisMove(r, clipped, Point(proposed.x, clipped.y), horizontal);
    AxisMove(r, horizontal, Point(horizontal.x, proposed.y), out);
  }

  /** Any run of confined motions stays in the closed union of the region. */
  lemma {:induction false} ConfinedNeverEscapes(region: seq<Rect>, trace: seq<Point>, proposals: seq<Point>)
    requires |trace| == |proposals| + 1 && InAnyClosed(region, trace[0])
    requires forall i :: 0 <= i < |proposals| ==> IsConfined(region, trace[i], proposals[i], trace[i + 1])
    ensures forall i :: 0 <= i < |trace| ==> InAnyClosed(region, trace[i])
  {
    hide ConfinedVia;
    if proposals != [] {
      var n := |proposals| - 1;
      ConfinedNeverEscapes(region, trace[..n + 1], proposals[..n]);
      assert InAnyClosed(region, trace[..n + 1][n]);
      var clipped, horizontal :| ConfinedVia(region, trace[n], proposals[n], clipped, horizontal, trace[n + 1]);
      ConfinedPathIsCovered(region, trace[n], proposals[n], clipped, horizontal, trace[n + 1]);
    }
  }

  // ------------------------------------------------- staying in the half-open union

  ghost predicate Whole(v: real) { v.Floor as real == v }

  /** s lies between t and b, b included, t not. */
  predicate Towards(t: real, b: real, s: real) {
    if t < b then t < s <= b else b <= s < t
  }

  /** What an axis does not touch, it does not touch nearby. */
  lemma AxisStaysOff(p: real, d: real, lo: real, hi: real, t: real) returns (near: real)
    requires !AxisTouches(p, d, lo, hi, t)
    ensures near > 0.0 && forall s: real :: RAbs(s - t) <= near ==> !AxisTouches(p, d, lo, hi, s)
  {
    if d == 0.0 {
      near := 1.0;
    } else {
      var gap := if p + d * t < lo then lo - (p + d * t) else p + d * t - hi;
      near := (gap / 2.0) / RAbs(d);
      assert near * RAbs(d) == gap / 2.0;
      forall s: real | RAbs(s - t) <= near
        ensures !AxisTouches(p, d, lo, hi, s)
      {
        ShortMove(d, s - t, near);
        assert d * s == d * t + d * (s - t);
      }
    }
  }

  lemma ShortMove(d: real, step: real, near: real)
    requires RAbs(step) <= near
    ensures RAbs(d * step) <= near * RAbs(d)
  {
    AbsOfProductSize(d, step);
    assert RAbs(step) * RAbs(d) <= near * RAbs(d);
  }

  lemma AbsOfProductSize(a: real, b: real)
    ensures RAbs(a * b) == RAbs(b) * RAbs(a)
  {
  }

  lemma StaysOff(r: Rect, from: Point, delta: Point, t: real) returns (near: real)
    requires !Touches(r, from, delta, t)
    ensures near > 0.0 && forall s: real :: RAbs(s - t) <= near ==> !Touches(r, from, delta, s)
  {
    if !AxisTouches(from.x, delta.x, r.x as real, r.Right() as real, t) {
      near := AxisStaysOff(from.x, delta.x, r.x as real, r.Right() as real, t);
    } else {
      near := AxisStaysOff(from.y, delta.y, r.y as real, r.Bottom() as real, t);
    }
  }

  /** Where a stretch is covered, one rectangle covers both its end and a part
      of it: there are only finitely many. */
  lemma {:induction false} ReachesEnd(region: seq<Rect>, from: Point, delta: Point, t: real, b: real)
    returns (r: Rect, s: real)
    requires t != b && forall s: real {:trigger TouchesAny(region, from, delta, s)} ::
                         Towards(t, b, s) ==> TouchesAny(region, from, delta, s)
    ensures r in region && Towards(t, b, s) && Touches(r, from, delta, t) && Touches(r, from, delta, s)
    decreases |region|
  {
    assert Towards(t, b, b);
    assert TouchesAny(region, from, delta, b);
    var first, rest := region[0], region[1..];
    if Touches(first, from, delta, t) && exists s: real :: Towards(t, b, s) && Touches(first, from, delta, s) {
      r := first;
      s :| Towards(t, b, s) && Touches(first, from, delta, s);
    } else {
      var nearer := b;
      if !Touches(first, from, delta, t) {
        var near := StaysOff(first, from, delta, t);
        nearer := if t < b then RMin(b, t + near) else RMax(b, t - near);
      }
      forall s: real | Towards(t, nearer, s)
        ensures TouchesAny(rest, from, delta, s)
      {
        assert TouchesAny(region, from, delta, s);
        var q :| q in region && Touches(q, from, delta, s);
        assert q != first;
        assert q in rest;
      }
      r, s := ReachesEnd(rest, from, delta, t, nearer);
    }
  }

  /** At one end of a touched stretch an axis is inside, unless it is at its
      far edge and the stretch leads back from there. */
  lemma AxisInside(p: real, d: real, lo: int, hi: int, t: real, s: real, v: real)
    requires AxisTouches(p, d, lo as real, hi as real, t) && AxisTouches(p, d, lo as real, hi as real, s)
    requires t != s && v == p + d * t
    ensures lo as real <= v
    ensures v >= hi as real ==> Whole(v) && if t < s then d < 0.0 else d > 0.0
  {
    IntegersAreWhole(hi);
    if d > 0.0 && t < s {
      SignOfProduct(t - s, d);
      assert p + d * s - v == -((t - s) * d);
    } else if d < 0.0 && s < t {
      SignOfProduct(s - t, d);
      assert p + d * s - v == (s - t) * d;
    }
  }

  lemma RectInside(r: Rect, from: Point, delta: Point, t: real, s: real, at: Point)
    requires Touches(r, from, delta, t) && Touches(r, from, delta, s) && t != s
    requires at == At(from, delta, t) && !r.Contains(at)
    ensures || (Whole(at.x) && if t < s then delta.x < 0.0 else delta.x > 0.0)
            || (Whole(at.y) && if t < s then delta.y < 0.0 else delta.y > 0.0)
  {
    hide AxisTouches, Whole;
    AxisInside(from.x, delta.x, r.x, r.Right(), t, s, at.x);
    AxisInside(from.y, delta.y, r.y, r.Bottom(), t, s, at.y);
    hide At;
  }

  lemma IntegersAreWhole(k: int)
    ensures Whole(k as real)
  {
  }

  /** A covered point before the exit that no rectangle contains lies on two
      far edges at once, with both axes moving, one each way. */
  lemma MissedIsCorner(region: seq<Rect>, from: Point, delta: Point, t: real, e: real)
    requires 0.0 < t < e && CoveredUpTo(region, from, delta, e)
    requires !InAny(region, At(from, delta, t))
    ensures delta.x != 0.0 && delta.y != 0.0
    ensures Whole(At(from, delta, t).x) && Whole(At(from, delta, t).y)
  {
    var ahead, a := ReachesEnd(region, from, delta, t, e);
    var behind, b := ReachesEnd(region, from, delta, t, 0.0);
    var at := At(from, delta, t);
    assert !ahead.Contains(at) && !behind.Contains(at);
    hide Touches, CoveredUpTo, Whole, At;
    RectInside(ahead, from, delta, t, a, at);
    RectInside(behind, from, delta, t, b, at);
  }

  /** With room left on a moving axis, it goes on touching. */
  lemma AxisGoesOn(p: real, d: real, lo: real, hi: real, e: real) returns (room: real)
    requires AxisTouches(p, d, lo, hi, e)
    requires d > 0.0 ==> p + d * e < hi
    requires d < 0.0 ==> lo < p + d * e
    ensures room > 0.0 && forall s: real :: e <= s <= e + room ==> AxisTouches(p, d, lo, hi, s)
  {
    if d == 0.0 {
      room := 1.0;
    } else {
      var gap := if d > 0.0 then hi - (p + d * e) else p + d * e - lo;
      room := gap / RAbs(d);
      assert room * RAbs(d) == gap;
      forall s: real | e <= s <= e + room
        ensures AxisTouches(p, d, lo, hi, s)
      {
        var u := d * (s - e);
        ShortMove(d, s - e, room);
        SameSign(d, s - e);
        assert d * s == d * e + u;
        assert RAbs(u) <= gap && (d > 0.0 ==> u >= 0.0) && (d < 0.0 ==> u <= 0.0);
      }
    }
  }

  lemma SameSign(d: real, step: real)
    requires step >= 0.0
    ensures (d > 0.0 ==> d * step >= 0.0) && (d < 0.0 ==> d * step <= 0.0)
  {
    if step > 0.0 {
      SignOfProduct(-step, d);
      assert -step * d == -(d * step);
    } else {
      assert d * step == 0.0;
    }
  }

  lemma GoesOn(r: Rect, from: Point, delta: Point, e: real) returns (room: real)
    requires Touches(r, from, delta, e)
    requires delta.x > 0.0 ==> from.x + delta.x * e < r.Right() as real
    requires delta.x < 0.0 ==> r.x as real < from.x + delta.x * e
    requires delta.y > 0.0 ==> from.y + delta.y * e < r.Bottom() as real
    requires delta.y < 0.0 ==> r.y as real < from.y + delta.y * e
    ensures room > 0.0 && forall s: real :: e <= s <= e + room ==> Touches(r, from, delta, s)
  {
    var x := AxisGoesOn(from.x, delta.x, r.x as real, r.Right() as real, e);
    var y := AxisGoesOn(from.y, delta.y, r.y as real, r.Bottom() as real, e);
    room := RMin(x, y);
  }

  lemma AxisHasRoom(p: real, d: real, lo: int, hi: int, e: real, v: real)
    requires AxisTouches(p, d, lo as real, hi as real, e) && v == p + d * e && !(d != 0.0 && Whole(v))
    ensures (d > 0.0 ==> v < hi as real) && (d < 0.0 ==> lo as real < v)
  {
    IntegersAreWhole(lo);
    IntegersAreWhole(hi);
    hide Whole;
  }

  /** Where a motion leaves for good, a moving axis has reached a whole coordinate. */
  lemma LeavingIsAtAnEdge(region: seq<Rect>, from: Point, delta: Point, e: real, r: Rect, at: Point)
    requires IsExit(region, from, delta, e) && 0.0 < e < 1.0
    requires r in region && Touches(r, from, delta, e) && at == At(from, delta, e)
    ensures (delta.x != 0.0 && Whole(at.x)) || (delta.y != 0.0 && Whole(at.y))
  {
    if !(delta.x != 0.0 && Whole(at.x)) && !(delta.y != 0.0 && Whole(at.y)) {
      hide AxisTouches, Whole, CoveredUpTo;
      AxisHasRoom(from.x, delta.x, r.x, r.Right(), e, at.x);
      AxisHasRoom(from.y, delta.y, r.y, r.Bottom(), e, at.y);
      var room := GoesOn(r, from, delta, e);
      hide Touches;
      CoveredFarther(region, from, delta, e, r, room);
    }
  }

  lemma CoveredFarther(region: seq<Rect>, from: Point, delta: Point, e: real, r: Rect, room: real)
    requires CoveredUpTo(region, from, delta, e) && r in region && room > 0.0
    requires forall s: real :: e <= s <= e + room ==> Touches(r, from, delta, s)
    ensures CoveredUpTo(region, from, delta, RMin(1.0, e + room))
  {
    hide Touches;
    forall q: real | 0.0 <= q <= RMin(1.0, e + room)
      ensures TouchesAny(region, from, delta, q)
    {
      if q > e {
        assert Touches(r, from, delta, q);
      }
    }
  }

  lemma CoveredBehind(region: seq<Rect>, from: Point, delta: Point, e: real) returns (r: Rect, s: real)
    requires e > 0.0 && CoveredUpTo(region, from, delta, e)
    ensures r in region && s < e && Touches(r, from, delta, e) && Touches(r, from, delta, s)
  {
    r, s := ReachesEnd(region, from, delta, e, 0.0);
  }

  lemma ExitIsAtAnEdge(region: seq<Rect>, from: Point, to: Point, e: real)
    requires IsExit(region, from, to.Minus(from), e) && e > 0.0 && (e < 1.0 || !InAny(region, to))
    ensures var d := to.Minus(from);
            (d.x != 0.0 && Whole(At(from, d, e).x)) || (d.y != 0.0 && Whole(At(from, d, e).y))
  {
    hide Touches, Whole, CoveredUpTo;
    var d := to.Minus(from);
    var r, s := CoveredBehind(region, from, d, e);
    if e < 1.0 {
      LeavingIsAtAnEdge(region, from, d, e, r, At(from, d, e));
    } else {
      AtEnds(from, to);
      hide At;
      assert !r.Contains(to);
      RectInside(r, from, d, e, s, to);
    }
  }

  /** Two whole coordinates of a moving axis are a pixel apart, not a protocol unit. */
  lemma WholesAreApart(v: real, w: real)
    requires 0.0 < RAbs(w - v) < 1.0
    ensures !Whole(v) || !Whole(w)
  {
    IntegerGap(v.Floor, w.Floor);
  }

  lemma IntegerGap(i: int, j: int)
    ensures i == j || RAbs(j as real - i as real) >= 1.0
  {
    assert j as real - i as real == (j - i) as real;
  }

  lemma InsetIsShort(d: real, m: real, t: real, e: real, inset: real)
    requires d != 0.0 && RAbs(d) <= m && e - t == inset > 0.0 && inset * m == 1.0 / 256.0
    ensures 0.0 < RAbs(d * e - d * t) < 1.0
  {
    assert d * e - d * t == d * inset;
    ShortMove(d, inset, inset);
    if inset * RAbs(d) > inset * m {
      SignOfProduct(RAbs(d) - m, inset);
    }
    SignOfProduct(-inset, d);
    assert d * inset == -(-inset * d);
  }

  lemma NoWholeStep(from: Point, delta: Point, t: real, e: real)
    requires delta != Origin && t == e - Inset(delta)
    ensures delta.x != 0.0 ==> !Whole(At(from, delta, t).x) || !Whole(At(from, delta, e).x)
    ensures delta.y != 0.0 ==> !Whole(At(from, delta, t).y) || !Whole(At(from, delta, e).y)
  {
    var m := RMax(RAbs(delta.x), RAbs(delta.y));
    InsetIsPositive(delta);
    assert Inset(delta) * m == 1.0 / 256.0;
    hide Whole;
    if delta.x != 0.0 {
      InsetIsShort(delta.x, m, t, e, Inset(delta));
      WholesAreApart(At(from, delta, t).x, At(from, delta, e).x);
    }
    if delta.y != 0.0 {
      InsetIsShort(delta.y, m, t, e, Inset(delta));
      WholesAreApart(At(from, delta, t).y, At(from, delta, e).y);
    }
  }

  /** A clipped motion from inside ends inside, exclusive edges included,
      whatever rectangles make up the region. */
  lemma ClippedStaysInside(region: seq<Rect>, from: Point, to: Point, out: Point)
    requires IsClipped(region, from, to, out) && InAny(region, from)
    ensures InAny(region, out)
  {
    hide IsClipped, Inset, Whole, At, RMax, InAny;
    if from == to {
      EmptyMotion(region, from, out);
    } else {
      var delta := to.Minus(from);
      ParallelOrNot(from, to);
      var t, e := ClippedFraction(region, from, to, out);
      if !InAny(region, out) {
        LastFraction(delta, t, e);
        MissedIsCorner(region, from, delta, t, e);
        ExitIsAtAnEdge(region, from, to, e);
        NoWholeStep(from, delta, t, e);
      }
    }
  }

  lemma LastFraction(delta: Point, t: real, e: real)
    requires delta != Origin && t == RMax(e - Inset(delta), 0.0) && t > 0.0
    ensures t == e - Inset(delta)
  {
  }

  lemma ConfinedStaysInside(region: seq<Rect>, current: Point, proposed: Point, out: Point)
    requires IsConfined(region, current, proposed, out) && InAny(region, current)
    ensures InAny(region, out)
  {
    var clipped, horizontal :| ConfinedVia(region, current, proposed, clipped, horizontal, out);
    hide IsClipped, InAny;
    ClippedStaysInside(region, current, proposed, clipped);
    ClippedStaysInside(region, clipped, Point(proposed.x, clipped.y), horizontal);
    ClippedStaysInside(region, horizontal, Point(horizontal.x, proposed.y), out);
  }

  /** Any run of confined motions in a region stays in it: an active
      confinement is never released by the motions it allows. */
  lemma {:induction false} ConfinedForever(region: seq<Rect>, trace: seq<Point>, proposals: seq<Point>)
    requires |trace| == |proposals| + 1 && InAny(region, trace[0])
    requires forall i :: 0 <= i < |proposals| ==> IsConfined(region, trace[i], proposals[i], trace[i + 1])
    ensures forall i :: 0 <= i < |trace| ==> InAny(region, trace[i])
  {
    hide IsConfined, InAny;
    if proposals != [] {
      var n := |proposals| - 1;
      ConfinedForever(region, trace[..n + 1], proposals[..n]);
      assert InAny(region, trace[..n + 1][n]);
      ConfinedStaysInside(region, trace[n], proposals[n], trace[n + 1]);
    }
  }

  // ---------------------------------------------------- the width of the inset

  /** The source's comment promises a full protocol unit to the exclusive
      right and bottom edges. A motion clipped where it reaches such an edge
      keeps it exactly when that axis is the faster one and the start kept it. */
  lemma FullUnitAtFarEdge(region: seq<Rect>, right: int, bottom: int, from: Point, to: Point, out: Point, e: real)
    requires IsClipped(region, from, to, out) && from != to && IsExit(region, from, to.Minus(from), e)
    requires e < 1.0 || !InAny(region, to)
    ensures var d := to.Minus(from);
            && (d.x > 0.0 && from.x + d.x * e == right as real ==>
                  (FullUnitInside(out.x, right) <==> d.x >= RAbs(d.y) && FullUnitInside(from.x, right)))
            && (d.y > 0.0 && from.y + d.y * e == bottom as real ==>
                  (FullUnitInside(out.y, bottom) <==> d.y >= RAbs(d.x) && FullUnitInside(from.y, bottom)))
  {
    hide IsClipped, Inset, At, RMax, RAbs, FullUnitInside;
    ParallelOrNot(from, to);
    var t, e' := ClippedFraction(region, from, to, out);
    ExitIsUnique(region, from, to.Minus(from), e, e');
    InsetAtFarEdge(from, to.Minus(from), t, e, right, bottom);
  }

  predicate FullUnitInside(v: real, edge: int) { v <= edge as real - 1.0 / 256.0 }

  lemma InsetAtFarEdge(from: Point, d: Point, t: real, e: real, right: int, bottom: int)
    requires d != Origin && 0.0 <= e && t == RMax(e - Inset(d), 0.0)
    ensures d.x > 0.0 && from.x + d.x * e == right as real ==>
              (FullUnitInside(At(from, d, t).x, right) <==> d.x >= RAbs(d.y) && FullUnitInside(from.x, right))
    ensures d.y > 0.0 && from.y + d.y * e == bottom as real ==>
              (FullUnitInside(At(from, d, t).y, bottom) <==> d.y >= RAbs(d.x) && FullUnitInside(from.y, bottom))
  {
    hide RAbs;
    if d.x > 0.0 && from.x + d.x * e == right as real {
      AbsOfPositive(d.x);
      UnitInside(from.x, d.x, d.y, right as real, e, t, At(from, d, t).x);
    }
    if d.y > 0.0 && from.y + d.y * e == bottom as real {
      AbsOfPositive(d.y);
      UnitInside(from.y, d.y, d.x, bottom as real, e, t, At(from, d, t).y);
    }
  }

  lemma AbsOfPositive(v: real)
    requires v > 0.0
    ensures RAbs(v) == v
  {
  }

  lemma ParallelOrNot(from: Point, to: Point)
    requires from != to
    ensures to.Minus(from) != Origin
  {
  }

  lemma ExitIsUnique(region: seq<Rect>, from: Point, delta: Point, e1: real, e2: real)
    requires IsExit(region, from, delta, e1) && IsExit(region, from, delta, e2)
    ensures e1 == e2
  {
    assert !(e1 < e2) && !(e2 < e1);
  }

  lemma UnitInside(p: real, d: real, other: real, hi: real, e: real, t: real, out: real)
    requires d > 0.0 && 0.0 <= e && p + d * e == hi
    requires t == RMax(e - (1.0 / 256.0) / RMax(RAbs(d), RAbs(other)), 0.0) && out == p + d * t
    ensures out <= hi - 1.0 / 256.0 <==> d >= RAbs(other) && p <= hi - 1.0 / 256.0
  {
    var m := RMax(d, RAbs(other));
    var inset := (1.0 / 256.0) / m;
    assert inset * m == 1.0 / 256.0;
    if e > inset {
      assert d * t == d * e - d * inset;
      StretchedInset(d, m, inset, e);
    } else {
      assert d * t == 0.0;
      FractionBelow(d, e, inset);
      StretchedInset(d, m, inset, inset);
    }
  }

  lemma StretchedInset(d: real, m: real, inset: real, e: real)
    requires 0.0 < d <= m && 0.0 < inset <= e && inset * m == 1.0 / 256.0
    ensures d * inset <= 1.0 / 256.0
    ensures d * inset >= 1.0 / 256.0 <==> d == m
    ensures d == m ==> d * e >= 1.0 / 256.0
  {
    assert (m - d) * inset == 1.0 / 256.0 - d * inset;
    if d < m {
      SignOfProduct(d - m, inset);
    }
    if d == m {
      FractionBelow(d, inset, e);
    }
  }

  // ------------------------------------------------- the inset after all three legs

  /** Where one axis that starts inside meets its edge, as a fraction of the motion. */
  function AxisExitAt(p: real, d: real, lo: real, hi: real): real {
    if d == 0.0 then 1.0 else ((if d > 0.0 then hi else lo) - p) / d
  }

  /** Where a motion leaves a single rectangle. */
  function ExitFraction(r: Rect, from: Point, delta: Point): real {
    RMin(1.0, RMin(AxisExitAt(from.x, delta.x, r.x as real, r.Right() as real),
                   AxisExitAt(from.y, delta.y, r.y as real, r.Bottom() as real)))
  }

  lemma AxisTouchesUpTo(p: real, d: real, lo: real, hi: real, s: real)
    requires lo <= p < hi && 0.0 <= s <= 1.0
    ensures AxisExitAt(p, d, lo, hi) >= 0.0
    ensures AxisTouches(p, d, lo, hi, s) <==> s <= AxisExitAt(p, d, lo, hi)
  {
    if d != 0.0 {
      var edge := if d > 0.0 then hi else lo;
      var q := (edge - p) / d;
      assert q * d == edge - p;
      QuotientBounds(p, d, edge, s);
      QuotientBounds(p, d, edge, 0.0);
      FractionOf(d, s);
    }
  }

  lemma TouchesUpTo(r: Rect, from: Point, delta: Point, s: real)
    requires r.Contains(from) && 0.0 <= s <= 1.0
    ensures 0.0 <= ExitFraction(r, from, delta) <= 1.0
    ensures TouchesAny([r], from, delta, s) <==> s <= ExitFraction(r, from, delta)
  {
    AxisTouchesUpTo(from.x, delta.x, r.x as real, r.Right() as real, s);
    AxisTouchesUpTo(from.y, delta.y, r.y as real, r.Bottom() as real, s);
    TouchesOne(r, from, delta, s);
    hide AxisTouches, AxisExitAt, TouchesAny;
  }

  lemma ExitFractionIsExit(r: Rect, from: Point, delta: Point)
    requires r.Contains(from)
    ensures IsExit([r], from, delta, ExitFraction(r, from, delta))
  {
    hide ExitFraction, TouchesAny;
    var e := ExitFraction(r, from, delta);
    forall s: real | 0.0 <= s <= 1.0
      ensures 0.0 <= e <= 1.0 && (TouchesAny([r], from, delta, s) <==> s <= e)
    {
      TouchesUpTo(r, from, delta, s);
    }
    TouchesUpTo(r, from, delta, 0.0);
    assert CoveredUpTo([r], from, delta, e);
    forall f: real | e < f <= 1.0
      ensures !CoveredUpTo([r], from, delta, f)
    {
      assert !TouchesAny([r], from, delta, f);
    }
  }

  /** Where the first of the three legs ends when the proposal is outside. */
  function FirstLeg(r: Rect, current: Point, proposed: Point): Point
    requires current != proposed
  {
    var delta := proposed.Minus(current);
    ParallelOrNot(current, proposed);
    At(current, delta, RMax(ExitFraction(r, current, delta) - Inset(delta), 0.0))
  }

  lemma FirstLegIsClipped(r: Rect, current: Point, proposed: Point, clipped: Point)
    requires r.Contains(current) && !r.Contains(proposed) && IsClipped([r], current, proposed, clipped)
    ensures clipped == FirstLeg(r, current, proposed)
  {
    hide IsClipped, ExitFraction, Inset, At, RMax;
    var delta := proposed.Minus(current);
    ParallelOrNot(current, proposed);
    var t, e := ClippedFraction([r], current, proposed, clipped);
    ExitFractionIsExit(r, current, delta);
    ExitIsUnique([r], current, delta, e, ExitFraction(r, current, delta));
    assert !InAny([r], proposed);
  }

  /** A leg along one axis against the far edge keeps the unit its start kept. */
  lemma PushedRightKeepsUnit(r: Rect, from: Point, to: Point, out: Point)
    requires r.Contains(from) && IsClipped([r], from, to, out)
    requires from.y == to.y && to.x >= r.Right() as real
    ensures FullUnitInside(out.x, r.Right()) <==> FullUnitInside(from.x, r.Right())
  {
    assert !r.Contains(to) && !InAny([r], to);
    hide IsClipped, FullUnitInside, Inset, InAny, IsExit;
    AtEnds(from, to);
    ParallelOrNot(from, to);
    var t, e := ClippedFraction([r], from, to, out);
    hide At;
    SingleAxisExit(r, from, to.Minus(from), e);
    FullUnitAtFarEdge([r], r.Right(), r.Bottom(), from, to, out, e);
  }

  lemma PushedDownKeepsUnit(r: Rect, from: Point, to: Point, out: Point)
    requires r.Contains(from) && IsClipped([r], from, to, out)
    requires from.x == to.x && to.y >= r.Bottom() as real
    ensures FullUnitInside(out.y, r.Bottom()) <==> FullUnitInside(from.y, r.Bottom())
  {
    assert !r.Contains(to) && !InAny([r], to);
    hide IsClipped, FullUnitInside, Inset, InAny, IsExit;
    AtEnds(from, to);
    ParallelOrNot(from, to);
    var t, e := ClippedFraction([r], from, to, out);
    hide At;
    SingleAxisExit(r, from, to.Minus(from), e);
    FullUnitAtFarEdge([r], r.Right(), r.Bottom(), from, to, out, e);
  }

  /** Only the moving coordinate of an axis-parallel leg changes. */
  lemma LegStaysOnLine(region: seq<Rect>, from: Point, to: Point, out: Point)
    requires IsClipped(region, from, to, out)
    ensures from.x == to.x ==> out.x == from.x
    ensures from.y == to.y ==> out.y == from.y
  {
    hide IsClipped;
    if from == to {
      EmptyMotion(region, from, out);
    } else {
      var t, e := ClippedFraction(region, from, to, out);
    }
  }

  /** A coordinate whose proposal is short of the far edge. */
  lemma ShortOfEdgeKeepsUnit(out: real, to: real, lo: int, hi: int)
    requires lo < hi && to < hi as real && NearClamp(out, to, lo as real, hi as real)
    ensures FullUnitInside(out, hi) <==> FullUnitInside(to, hi)
  {
    assert lo as real + 1.0 <= hi as real;
  }

  /** What the pointer gets, after all three legs: a proposal short of an
      exclusive edge keeps the unit it has itself; one past it keeps the unit
      exactly if the first leg ends a unit inside. */
  lemma ConfinedKeepsUnitIff(r: Rect, current: Point, proposed: Point, out: Point)
    requires r.Contains(current) && IsConfined([r], current, proposed, out)
    ensures FullUnitInside(out.x, r.Right()) <==>
              if proposed.x < r.Right() as real then FullUnitInside(proposed.x, r.Right())
              else FullUnitInside(FirstLeg(r, current, proposed).x, r.Right())
    ensures FullUnitInside(out.y, r.Bottom()) <==>
              if proposed.y < r.Bottom() as real then FullUnitInside(proposed.y, r.Bottom())
              else FullUnitInside(FirstLeg(r, current, proposed).y, r.Bottom())
  {
    var clipped, horizontal :| ConfinedVia([r], current, proposed, clipped, horizontal, out);
    ConfinedIsClampOnOneRectangle(r, current, proposed, out);
    hide IsClipped, FirstLeg, FullUnitInside, NearClamp, IsConfined;
    if proposed.x < r.Right() as real {
      ShortOfEdgeKeepsUnit(out.x, proposed.x, r.x, r.Right());
    } else {
      FirstLegIsClipped(r, current, proposed, clipped);
      ClippedOnOneRectangle(r, current, proposed, clipped);
      PushedRightKeepsUnit(r, clipped, Point(proposed.x, clipped.y), horizontal);
      LegStaysOnLine([r], horizontal, Point(horizontal.x, proposed.y), out);
    }
    if proposed.y < r.Bottom() as real {
      ShortOfEdgeKeepsUnit(out.y, proposed.y, r.y, r.Bottom());
    } else {
      FirstLegIsClipped(r, current, proposed, clipped);
      ClippedOnOneRectangle(r, current, proposed, clipped);
      ClippedOnOneRectangle(r, clipped, Point(proposed.x, clipped.y), horizontal);
      LegStaysOnLine([r], clipped, Point(proposed.x, clipped.y), horizontal);
      PushedDownKeepsUnit(r, horizontal, Point(horizontal.x, proposed.y), out);
    }
  }

  const Screen := Rect(0, 0, 200, 200)
  const NearBottom := Point(50.0, 199.5)
  const PastBottom := Point(150.0, 200.5)

  /** A concrete motion that ends closer than a protocol unit to the exclusive
      bottom edge, even after all three legs. */
  lemma FullUnitCanBeLost(out: Point)
    requires IsConfined([Screen], NearBottom, PastBottom, out)
    ensures Screen.Contains(out) && !FullUnitInside(out.y, Screen.Bottom())
  {
    hide ConfinedVia;
    var clipped, horizontal :| ConfinedVia([Screen], NearBottom, PastBottom, clipped, horizontal, out);
    assert Screen.Contains(NearBottom);
    hide *;
    ConfinedIsClampOnOneRectangle(Screen, NearBottom, PastBottom, out);
    LostUnitLegs(clipped, horizontal, out);
  }

  lemma LostUnitLegs(clipped: Point, horizontal: Point, out: Point)
    requires ConfinedVia([Screen], NearBottom, PastBottom, clipped, horizontal, out)
    ensures !FullUnitInside(out.y, Screen.Bottom())
  {
    hide IsClipped;
    LostUnitLeg(clipped);
    NeverMovesBack([Screen], NearBottom, PastBottom, clipped);
    NeverMovesBack([Screen], clipped, Point(PastBottom.x, clipped.y), horizontal);
    NeverMovesBack([Screen], horizontal, Point(horizontal.x, PastBottom.y), out);
  }

  lemma NeverMovesBack(region: seq<Rect>, from: Point, to: Point, out: Point)
    requires IsClipped(region, from, to, out) && from.y <= to.y
    ensures from.y <= out.y <= to.y
  {
    hide IsClipped, Inset;
    if from == to {
      EmptyMotion(region, from, out);
    } else {
      var t, e := ClippedFraction(region, from, to, out);
      var d := to.y - from.y;
      FractionOf(d, t);
      assert 0.0 <= d * t <= d;
      assert out.y == from.y + d * t;
    }
  }

  lemma LostUnitLeg(clipped: Point)
    requires IsClipped([Screen], NearBottom, PastBottom, clipped)
    ensures !FullUnitInside(clipped.y, Screen.Bottom())
  {
    hide IsClipped, Inset, IsExit;
    assert PastBottom.Minus(NearBottom) == Point(100.0, 1.0);
    var t, e := ClippedFraction([Screen], NearBottom, PastBottom, clipped);
    LostUnitExit(e);
    LostUnitInset();
  }

  lemma LostUnitInset()
    ensures Inset(Point(100.0, 1.0)) == 1.0 / 25600.0
  {
  }

  lemma LostUnitTouch(s: real)
    requires 0.0 <= s <= 1.0
    ensures TouchesAny([Screen], NearBottom, Point(100.0, 1.0), s) <==> s <= 0.5
  {
    TouchesOne(Screen, NearBottom, Point(100.0, 1.0), s);
  }

  lemma LostUnitExit(e: real)
    requires IsExit([Screen], NearBottom, Point(100.0, 1.0), e)
    ensures e == 0.5
  {
    hide TouchesAny;
    var delta := Point(100.0, 1.0);
    forall s: real | 0.0 <= s <= 1.0
      ensures TouchesAny([Screen], NearBottom, delta, s) <==> s <= 0.5
    {
      LostUnitTouch(s);
    }
    assert CoveredUpTo([Screen], NearBottom, delta, 0.5);
    assert e > 0.5 ==> TouchesAny([Screen], NearBottom, delta, e);
  }

  // ------------------------------------------------------ one motion, decided

  datatype ConstraintKind = Locked | Confined

  /** One pointer constraint object of a surface. */
  class PointerConstraint {
    const kind: ConstraintKind
    var region: Option<seq<RegionOp>>
    var active: bool

    constructor (kind: ConstraintKind, region: Option<seq<RegionOp>>)
      ensures this.kind == kind && this.region == region && !active
    {
      this.kind, this.region, active := kind, region, false;
    }

    ghost predicate Admits(input: seq<Rect>, local: Point)
      reads this
    {
      InAny(input, local) && InRegion(region, local)
    }
  }

  /** The constraint's say on a proposed motion: where the pointer may go and
      whether it is held in place. A constraint whose region no longer admits
      the parked pointer is released and has no say. */
  method ConstrainPointer(constraint: PointerConstraint?, input: seq<Rect>, origin: Point,
                          current: Point, proposed: Point)
    returns (out: Point, held: bool)
    modifies if constraint == null then {} else {constraint}
    ensures constraint != null ==>
              && constraint.region == old(constraint.region)
              && constraint.active == (old(constraint.active) && constraint.Admits(input, current.Minus(origin)))
    ensures constraint == null || !constraint.active ==> out == proposed && !held
    ensures constraint != null && constraint.active && constraint.kind.Locked? ==> out == current && held
    ensures constraint != null && constraint.active ==> constraint.Admits(input, out.Minus(origin))
    ensures constraint != null && constraint.active && constraint.kind.Confined? ==>
              && !held
              && exists rects: seq<Rect> ::
                   && (forall p: Point :: InAny(rects, p) <==> constraint.Admits(input, p))
                   && (constraint.region.None? ==> rects == input)
                   && IsConfined(rects, current.Minus(origin), proposed.Minus(origin), out.Minus(origin))
  {
    out, held := proposed, false;
    if constraint == null || !constraint.active {
      return;
    }
    var rects := ConstraintRegion(input, constraint.region);
    var local := current.Minus(origin);
    if !RegionHolds(rects, local) {
      constraint.active := false;
      return;
    }
    match constraint.kind
    case Locked =>
      out, held := current, true;
    case Confined =>
      var to := ConfineMotion(local, proposed.Minus(origin), rects);
      out := to.Plus(origin);
      assert out.Minus(origin) == to;
      ConfinedStaysInside(rects, local, proposed.Minus(origin), to);
  }

  /** After every motion: a constraint takes hold once the pointer is inside. */
  method ActivateIfEntered(constraint: PointerConstraint?, input: seq<Rect>, origin: Point, location: Point)
    modifies if constraint == null then {} else {constraint}
    ensures constraint != null ==>
              && constraint.region == old(constraint.region)
              && constraint.active == (old(constraint.active) || constraint.Admits(input, location.Minus(origin)))
  {
    if constraint != null && !constraint.active {
      var rects := ConstraintRegion(input, constraint.region);
      if RegionHolds(rects, location.Minus(origin)) {
        constraint.active := true;
      }
    }
  }
}
