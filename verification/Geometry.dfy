/** Half-open integer rectangles and real points, with the two set operations
    on rectangles that region handling needs. Coordinates that the program
    keeps in floating point are reals here. */
module Geometry {
  import opened Wrappers

  datatype Point = Point(x: real, y: real) {
    function Plus(q: Point): Point { Point(x + q.x, y + q.y) }
    function Minus(q: Point): Point { Point(x - q.x, y - q.y) }
  }

  datatype Rect = Rect(x: int, y: int, w: nat, h: nat) {
    function Right(): int { x + w }
    function Bottom(): int { y + h }

    /** Exclusive on the far edges. */
    predicate Contains(p: Point) {
      && x as real <= p.x < Right() as real
      && y as real <= p.y < Bottom() as real
    }

    /** The same rectangle with its far edges. */
    predicate ContainsClosed(p: Point) {
      && x as real <= p.x <= Right() as real
      && y as real <= p.y <= Bottom() as real
    }

    predicate Overlaps(o: Rect) {
      && x < o.Right() && o.x < Right()
      && y < o.Bottom() && o.y < Bottom()
    }
  }

  ghost predicate InAny(rects: seq<Rect>, p: Point) {
    exists r :: r in rects && r.Contains(p)
  }

  ghost predicate InAnyClosed(rects: seq<Rect>, p: Point) {
    exists r :: r in rects && r.ContainsClosed(p)
  }

  function Max(a: int, b: int): int { if a < b then b else a }
  function Min(a: int, b: int): int { if a < b then a else b }
  function RMax(a: real, b: real): real { if a < b then b else a }
  function RMin(a: real, b: real): real { if a < b then a else b }
  function RAbs(a: real): real { if a < 0.0 then -a else a }

  /** The common part of two rectangles, pointwise. */
  function Intersection(a: Rect, b: Rect): (r: Option<Rect>)
    ensures forall p: Point ::
              (r.Some? && r.value.Contains(p)) <==> (a.Contains(p) && b.Contains(p))
  {
    if !a.Overlaps(b) then None
    else
      var left, top := Max(a.x, b.x), Max(a.y, b.y);
      Some(Rect(left, top, Min(a.Right(), b.Right()) - left, Min(a.Bottom(), b.Bottom()) - top))
  }

  /** Removes one rectangle from another, pointwise: the bands above and below
      the hole and the pieces to its left and right. */
  function Subtract(a: Rect, hole: Rect): (r: seq<Rect>)
    ensures forall p: Point :: InAny(r, p) <==> (a.Contains(p) && !hole.Contains(p))
  {
    match Intersection(a, hole)
    case None =>
      assert forall p: Point :: InAny([a], p) <==> a.Contains(p) by {
        assert a in [a];
      }
      [a]
    case Some(cut) =>
      var above := Rect(a.x, a.y, a.w, cut.y - a.y);
      var left := Rect(a.x, cut.y, cut.x - a.x, cut.h);
      var right := Rect(cut.Right(), cut.y, a.Right() - cut.Right(), cut.h);
      var below := Rect(a.x, cut.Bottom(), a.w, a.Bottom() - cut.Bottom());
      var pieces := [above, left, right, below];
      assert forall p: Point :: InAny(pieces, p) <==>
                                (above.Contains(p) || left.Contains(p) || right.Contains(p) || below.Contains(p)) by {
        assert above == pieces[0] && left == pieces[1] && right == pieces[2] && below == pieces[3];
      }
      pieces
  }

  lemma InAnyConcat(a: seq<Rect>, b: seq<Rect>, p: Point)
    ensures InAny(a + b, p) <==> InAny(a, p) || InAny(b, p)
  {
    if InAny(a, p) {
      var r :| r in a && r.Contains(p);
      assert r in a + b;
    }
    if InAny(b, p) {
      var r :| r in b && r.Contains(p);
      assert r in a + b;
    }
  }

  /** Removes one rectangle from every rectangle of a list, pointwise. */
  function SubtractFromAll(rects: seq<Rect>, hole: Rect): (r: seq<Rect>)
    ensures forall p: Point :: InAny(r, p) <==> (InAny(rects, p) && !hole.Contains(p))
  {
    if rects == [] then []
    else
      var first, rest := Subtract(rects[0], hole), SubtractFromAll(rects[1..], hole);
      assert forall p: Point :: InAny(first + rest, p) <==> (InAny(rects, p) && !hole.Contains(p)) by {
        forall p: Point
          ensures InAny(first + rest, p) <==> (InAny(rects, p) && !hole.Contains(p))
        {
          InAnyConcat(first, rest, p);
          InAnyConcat([rects[0]], rects[1..], p);
          assert [rects[0]] + rects[1..] == rects;
          assert rects[0] in [rects[0]];
        }
      }
      first + rest
  }
}
