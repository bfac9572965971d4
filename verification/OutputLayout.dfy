/** Where heads lie: packing those nobody placed, and keeping the pointer on
    one of them. */
module OutputLayout {
  import opened Geometry

  // ------------------------------------------------------------ clamping the pointer

  // How far inside a far edge a clamped pointer lands.
  const EDGE_INSET: real := 0.001

  /** The points a clamped pointer may land on. */
  ghost predicate InInset(r: Rect, p: Point) {
    && r.x as real <= p.x <= RMax(r.Right() as real - EDGE_INSET, r.x as real)
    && r.y as real <= p.y <= RMax(r.Bottom() as real - EDGE_INSET, r.y as real)
  }

  function Inside(v: real, lo: real, hi: real): real {
    RMin(RMax(v, lo), RMax(hi - EDGE_INSET, lo))
  }

  function Candidate(r: Rect, pos: Point): Point {
    Point(Inside(pos.x, r.x as real, r.Right() as real), Inside(pos.y, r.y as real, r.Bottom() as real))
  }

  function Square(a: real): real { a * a }

  function Distance(p: Point, q: Point): real {
    Square(p.x - q.x) + Square(p.y - q.y)
  }

  lemma SquareGrows(a: real, b: real)
    requires RAbs(a) <= RAbs(b)
    ensures Square(a) <= Square(b)
  {
    assert Square(a) == RAbs(a) * RAbs(a) && Square(b) == RAbs(b) * RAbs(b);
    assert RAbs(a) * RAbs(a) <= RAbs(a) * RAbs(b) <= RAbs(b) * RAbs(b);
  }

  /** A rectangle's candidate is its inset point nearest to the pointer. */
  lemma CandidateIsNearest(r: Rect, pos: Point, q: Point)
    requires InInset(r, q)
    ensures InInset(r, Candidate(r, pos))
    ensures Distance(Candidate(r, pos), pos) <= Distance(q, pos)
  {
    var c := Candidate(r, pos);
    SquareGrows(c.x - pos.x, q.x - pos.x);
    SquareGrows(c.y - pos.y, q.y - pos.y);
  }

  /** What clamping must answer: the pointer itself if a head has it, else the
      nearest point any head offers, the earliest head's when several do. */
  ghost predicate IsClamped(rects: seq<Rect>, pos: Point, p: Point) {
    if InAny(rects, pos) || rects == [] then p == pos
    else
      exists i :: && 0 <= i < |rects| && InInset(rects[i], p)
                  && (forall j, q :: 0 <= j < |rects| && InInset(rects[j], q) ==> Distance(p, pos) <= Distance(q, pos))
                  && (forall j, q :: 0 <= j < i && InInset(rects[j], q) ==> Distance(p, pos) < Distance(q, pos))
  }

  method ClampPointToRectangles(pos: Point, rects: seq<Rect>) returns (p: Point)
    ensures IsClamped(rects, pos, p)
  {
    var found, best := false, 0.0;
    ghost var at := 0;
    p := pos;
    for k := 0 to |rects|
      invariant forall j :: 0 <= j < k ==> !rects[j].Contains(pos)
      invariant found <==> k > 0
      invariant found ==> at < k && p == Candidate(rects[at], pos) && best == Distance(p, pos)
      invariant found ==> forall j :: 0 <= j < k ==> best <= Distance(Candidate(rects[j], pos), pos)
      invariant found ==> forall j :: 0 <= j < at ==> best < Distance(Candidate(rects[j], pos), pos)
      invariant !found ==> p == pos
    {
      if rects[k].Contains(pos) {
        assert InAny(rects, pos);
        return pos;
      }
      var candidate := Candidate(rects[k], pos);
      var distance := Distance(candidate, pos);
      if !found || distance < best {
        found, best, p, at := true, distance, candidate, k;
      }
    }
    if found {
      forall j, q | 0 <= j < |rects| && InInset(rects[j], q)
        ensures Distance(Candidate(rects[j], pos), pos) <= Distance(q, pos)
      {
        CandidateIsNearest(rects[j], pos, q);
      }
      assert InInset(rects[at], p);
    }
  }

  /** With a head to be on, the pointer is on one. */
  lemma ClampedIsContained(rects: seq<Rect>, pos: Point, p: Point)
    requires IsClamped(rects, pos, p) && rects != []
    requires forall r :: r in rects ==> r.w >= 1 && r.h >= 1
    ensures InAny(rects, p)
  {
    if !InAny(rects, pos) {
      var i :| 0 <= i < |rects| && InInset(rects[i], p);
      assert rects[i] in rects && rects[i].Contains(p);
    }
  }

  lemma ClampIsIdempotent(rects: seq<Rect>, pos: Point, p: Point, again: Point)
    requires IsClamped(rects, pos, p) && IsClamped(rects, p, again)
    requires forall r :: r in rects ==> r.w >= 1 && r.h >= 1
    ensures again == p
  {
    if rects != [] {
      ClampedIsContained(rects, pos, p);
    }
  }

  lemma MidpointIsNearer(a: real, b: real, v: real)
    ensures Square((a + b) / 2.0 - v) <= (Square(a - v) + Square(b - v)) / 2.0
    ensures a != b ==> Square((a + b) / 2.0 - v) < (Square(a - v) + Square(b - v)) / 2.0
  {
    var m, d := (a + b) / 2.0 - v, (a - b) / 2.0;
    assert a - v == m + d && b - v == m - d;
    SquareOfSum(m, d);
    SquareOfSum(m, -d);
    assert m * -d == -(m * d);
    assert Square(d) == Square(-d);
    SquareIsPositive(d);
  }

  lemma SquareIsPositive(d: real)
    ensures d != 0.0 ==> Square(d) > 0.0
  {
    if d > 0.0 {
      ProductIsPositive(d, d, Square(d));
    } else if d < 0.0 {
      ProductIsPositive(-d, -d, Square(-d));
      assert Square(d) == Square(-d);
    }
  }

  lemma ProductIsPositive(a: real, b: real, product: real)
    requires a > 0.0 && b > 0.0 && product == a * b
    ensures product > 0.0
  {
  }

  lemma SquareOfSum(m: real, d: real)
    ensures Square(m + d) == Square(m) + 2.0 * (m * d) + Square(d)
  {
    assert (m + d) * (m + d) == m * (m + d) + d * (m + d);
    assert m * (m + d) == m * m + m * d;
    assert d * (m + d) == d * m + d * d;
  }

  /** So the answer is the only one there could be. */
  lemma ClampedIsUnique(rects: seq<Rect>, pos: Point, p: Point, q: Point)
    requires IsClamped(rects, pos, p) && IsClamped(rects, pos, q)
    ensures p == q
  {
    if !InAny(rects, pos) && rects != [] {
      var i :| && 0 <= i < |rects| && InInset(rects[i], p)
               && (forall j, q :: 0 <= j < |rects| && InInset(rects[j], q) ==> Distance(p, pos) <= Distance(q, pos))
               && (forall j, q :: 0 <= j < i && InInset(rects[j], q) ==> Distance(p, pos) < Distance(q, pos));
      var k :| && 0 <= k < |rects| && InInset(rects[k], q)
               && (forall j, p :: 0 <= j < |rects| && InInset(rects[j], p) ==> Distance(q, pos) <= Distance(p, pos))
               && (forall j, p :: 0 <= j < k && InInset(rects[j], p) ==> Distance(q, pos) < Distance(p, pos));
      assert Distance(p, pos) == Distance(q, pos) && i == k;
      NearestIsUnique(rects[i], pos, p, q);
    }
  }

  lemma NearestIsUnique(r: Rect, pos: Point, p: Point, q: Point)
    requires InInset(r, p) && InInset(r, q) && Distance(p, pos) == Distance(q, pos)
    requires forall m :: InInset(r, m) ==> Distance(p, pos) <= Distance(m, pos)
    ensures p == q
  {
    var middle := Point((p.x + q.x) / 2.0, (p.y + q.y) / 2.0);
    assert InInset(r, middle);
    MidpointIsNearer(p.x, q.x, pos.x);
    MidpointIsNearer(p.y, q.y, pos.y);
    hide Square, InInset;
  }
}
