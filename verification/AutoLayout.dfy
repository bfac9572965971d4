/** Packing the heads whose position nobody chose. */
module AutoLayout {
  import opened Geometry

  datatype Head = Head(positionExplicit: bool, area: Rect) {
    function At(x: int, y: int): Head { this.(area := Rect(x, y, area.w, area.h)) }
  }

  // ------------------------------------------------------------ when a layout is unsound

  predicate Adjoins(a: Rect, b: Rect) {
    b.Right() == a.x && b.y < a.Bottom() && a.y < b.Bottom()
  }

  predicate Detached(heads: seq<Head>, i: nat)
    requires i < |heads|
  {
    && !heads[i].positionExplicit && heads[i].area.x != 0
    && !exists j :: 0 <= j < |heads| && j != i && Adjoins(heads[i].area, heads[j].area)
  }

  predicate LayoutNeedsRepack(heads: seq<Head>) {
    || (exists i, j :: 0 <= i < j < |heads| && heads[i].area.Overlaps(heads[j].area))
    || (exists i :: 0 <= i < |heads| && Detached(heads, i))
  }

  ghost predicate PositiveSizes(heads: seq<Head>) {
    forall i :: 0 <= i < |heads| ==> heads[i].area.w >= 1 && heads[i].area.h >= 1
  }

  /** Head i can be walked to from an anchor, head by head. */
  ghost predicate Anchored(heads: seq<Head>, path: seq<nat>) {
    && path != []
    && (forall k :: 0 <= k < |path| ==> path[k] < |heads|)
    && (forall k :: 0 <= k < |path| - 1 ==> Adjoins(heads[path[k]].area, heads[path[k + 1]].area))
    && (heads[path[|path| - 1]].positionExplicit || heads[path[|path| - 1]].area.x == 0)
  }

  function LeftOf(heads: seq<Head>, x: int): set<nat> {
    set i: nat | i < |heads| && heads[i].area.x < x
  }

  /** In a layout left alone, touching heads lead from every head to x = 0 or to
      one the user placed. */
  lemma {:induction false} SoundLayoutIsAnchored(heads: seq<Head>, i: nat) returns (path: seq<nat>)
    requires !LayoutNeedsRepack(heads) && PositiveSizes(heads) && i < |heads|
    ensures Anchored(heads, path) && path[0] == i
    decreases |LeftOf(heads, heads[i].area.x)|
  {
    if heads[i].positionExplicit || heads[i].area.x == 0 {
      path := [i];
    } else {
      assert !Detached(heads, i);
      var j :| 0 <= j < |heads| && j != i && Adjoins(heads[i].area, heads[j].area);
      var left, farther := LeftOf(heads, heads[i].area.x), LeftOf(heads, heads[j].area.x);
      assert j in left && j !in farther && farther <= left;
      FewerLeft(farther, left, j);
      var rest := SoundLayoutIsAnchored(heads, j);
      path := [i] + rest;
    }
  }

  lemma FewerLeft(a: set<nat>, b: set<nat>, extra: nat)
    requires a <= b && extra in b && extra !in a
    ensures |a| < |b|
  {
    assert |b| == |a| + |b - a|;
    assert extra in b - a;
  }

  // ------------------------------------------------------------ sorting

  /** Before, in a stable sort by left edge. */
  predicate Before(heads: seq<Head>, i: nat, j: nat)
    requires i < |heads| && j < |heads|
  {
    heads[i].area.x < heads[j].area.x || (heads[i].area.x == heads[j].area.x && i < j)
  }

  ghost predicate InRange(heads: seq<Head>, order: seq<nat>) {
    forall k :: 0 <= k < |order| ==> order[k] < |heads|
  }

  ghost predicate Sorted(heads: seq<Head>, order: seq<nat>) {
    && InRange(heads, order)
    && forall k, l :: 0 <= k < l < |order| ==> Before(heads, order[k], order[l])
  }

  /** The heads nobody placed, left to right. */
  ghost predicate IsAutoOrder(heads: seq<Head>, order: seq<nat>) {
    && Sorted(heads, order)
    && forall i :: 0 <= i < |heads| ==> (i in order <==> !heads[i].positionExplicit)
  }

  lemma HasAMember(s: seq<nat>)
    requires s != []
    ensures exists i :: i in s
  {
    assert s[0] in s;
  }

  lemma {:induction false} SortedIsUnique(heads: seq<Head>, a: seq<nat>, b: seq<nat>)
    requires Sorted(heads, a) && Sorted(heads, b)
    requires forall i :: i in a <==> i in b
    ensures a == b
  {
    if a == [] {
      if b != [] {
        HasAMember(b);
      }
    } else {
      assert a[0] in b && b[0] in a;
      assert a[0] == b[0];
      forall i
        ensures i in a[1..] <==> i in b[1..]
      {
        if i in a[1..] {
          var k :| 0 <= k < |a| - 1 && a[1..][k] == i;
          assert a[k + 1] == i && i in b && i != b[0];
        }
        if i in b[1..] {
          var k :| 0 <= k < |b| - 1 && b[1..][k] == i;
          assert b[k + 1] == i && i in a && i != a[0];
        }
      }
      SortedIsUnique(heads, a[1..], b[1..]);
    }
  }

  /** Inserts head i after all those that come before it. */
  method InsertSorted(heads: seq<Head>, order: seq<nat>, i: nat) returns (r: seq<nat>)
    requires Sorted(heads, order) && i < |heads| && i !in order
    ensures Sorted(heads, r) && forall j :: j in r <==> j == i || j in order
  {
    var k := |order|;
    while k > 0 && Before(heads, i, order[k - 1])
      invariant 0 <= k <= |order|
      invariant forall l :: k <= l < |order| ==> Before(heads, i, order[l])
    {
      k := k - 1;
    }
    assert forall l :: 0 <= l < k ==> order[l] in order;
    InsertKeepsSorted(heads, order, i, k);
    r := order[..k] + [i] + order[k..];
    assert order == order[..k] + order[k..];
    hide Sorted;
  }

  lemma InsertKeepsSorted(heads: seq<Head>, order: seq<nat>, i: nat, k: nat)
    requires Sorted(heads, order) && i < |heads| && k <= |order|
    requires forall l :: k <= l < |order| ==> Before(heads, i, order[l])
    requires k > 0 ==> order[k - 1] != i && !Before(heads, i, order[k - 1])
    ensures Sorted(heads, order[..k] + [i] + order[k..])
  {
    forall l | 0 <= l < k
      ensures Before(heads, order[l], i)
    {
      assert l < k - 1 ==> Before(heads, order[l], order[k - 1]);
    }
  }

  // ------------------------------------------------------------ packing

  function ExplicitRight(heads: seq<Head>): (r: int)
    ensures r >= 0
    ensures forall i :: 0 <= i < |heads| && heads[i].positionExplicit ==> heads[i].area.Right() <= r
    ensures r == 0 || exists i :: 0 <= i < |heads| && heads[i].positionExplicit && heads[i].area.Right() == r
  {
    if heads == [] then 0
    else
      var rest, last := ExplicitRight(heads[..|heads| - 1]), heads[|heads| - 1];
      assert forall i :: 0 <= i < |heads| - 1 ==> heads[..|heads| - 1][i] == heads[i];
      if last.positionExplicit then Max(rest, last.area.Right()) else rest
  }

  /** How far right the first k heads of the order reach. */
  function Reach(heads: seq<Head>, order: seq<nat>, k: nat, from: int): int
    requires InRange(heads, order) && k <= |order|
  {
    if k == 0 then from else Reach(heads, order, k - 1, from) + heads[order[k - 1]].area.w
  }

  /** The unplaced heads lie edge to edge at the top, in this order, from the
      right of all placed ones; those are where they were. */
  ghost predicate IsPacked(heads: seq<Head>, packed: seq<Head>, order: seq<nat>) {
    && |packed| == |heads| && InRange(heads, order)
    && (forall i :: 0 <= i < |heads| && i !in order ==> packed[i] == heads[i])
    && (forall k :: 0 <= k < |order| ==>
          packed[order[k]] == heads[order[k]].At(Reach(heads, order, k, ExplicitRight(heads)), 0))
  }

  ghost predicate IsRepacked(heads: seq<Head>, after: seq<Head>) {
    if !LayoutNeedsRepack(heads) then after == heads
    else exists order :: IsAutoOrder(heads, order) && IsPacked(heads, after, order)
  }

  lemma ReachGrows(heads: seq<Head>, order: seq<nat>, k: nat, l: nat, from: int)
    requires InRange(heads, order) && PositiveSizes(heads) && k <= l <= |order|
    ensures Reach(heads, order, k, from) + (l - k) <= Reach(heads, order, l, from)
    ensures k < l ==> Reach(heads, order, k, from) + heads[order[k]].area.w <= Reach(heads, order, l, from)
    decreases l - k
  {
    if k < l {
      ReachGrows(heads, order, k, l - 1, from);
    }
  }

  lemma PackedInOrder(heads: seq<Head>, packed: seq<Head>, order: seq<nat>, k: nat, l: nat)
    requires IsAutoOrder(heads, order) && IsPacked(heads, packed, order) && PositiveSizes(heads)
    requires k < l < |order|
    ensures order[k] < |packed| && order[l] < |packed|
    ensures packed[order[k]].area.Right() <= packed[order[l]].area.x
  {
    hide IsAutoOrder;
    ReachGrows(heads, order, k, l, ExplicitRight(heads));
  }

  lemma PairIsDisjoint(heads: seq<Head>, packed: seq<Head>, order: seq<nat>, i: nat, j: nat)
    requires IsAutoOrder(heads, order) && IsPacked(heads, packed, order) && PositiveSizes(heads)
    requires i < |heads| && j < |heads| && i != j && !heads[j].positionExplicit
    ensures !packed[i].area.Overlaps(packed[j].area) && !packed[j].area.Overlaps(packed[i].area)
  {
    hide IsPacked, IsAutoOrder, PositiveSizes;
    var l := PlaceInOrder(heads, order, j);
    if heads[i].positionExplicit {
      RightOfPlaced(heads, packed, order, i, l);
    } else {
      var k := PlaceInOrder(heads, order, i);
      if k < l {
        PackedInOrder(heads, packed, order, k, l);
      } else {
        PackedInOrder(heads, packed, order, l, k);
      }
    }
  }

  lemma PlaceInOrder(heads: seq<Head>, order: seq<nat>, i: nat) returns (k: nat)
    requires IsAutoOrder(heads, order) && i < |heads| && !heads[i].positionExplicit
    ensures k < |order| && order[k] == i
  {
    assert i in order;
    k :| 0 <= k < |order| && order[k] == i;
  }

  /** Packed heads keep clear of each other and of every placed head, and keep
      their order. */
  lemma PackedIsDisjoint(heads: seq<Head>, packed: seq<Head>, order: seq<nat>)
    requires IsAutoOrder(heads, order) && IsPacked(heads, packed, order) && PositiveSizes(heads)
    ensures forall k, l :: 0 <= k < l < |order| ==> packed[order[k]].area.Right() <= packed[order[l]].area.x
    ensures forall i, j :: && 0 <= i < |heads| && 0 <= j < |heads| && i != j
                           && !(heads[i].positionExplicit && heads[j].positionExplicit) ==>
                             !packed[i].area.Overlaps(packed[j].area)
  {
    forall k, l | 0 <= k < l < |order|
      ensures packed[order[k]].area.Right() <= packed[order[l]].area.x
    {
      PackedInOrder(heads, packed, order, k, l);
    }
    hide IsAutoOrder, PositiveSizes;
    forall i, j | 0 <= i < |heads| && 0 <= j < |heads| && i != j && !heads[j].positionExplicit
      ensures !packed[i].area.Overlaps(packed[j].area) && !packed[j].area.Overlaps(packed[i].area)
    {
      PairIsDisjoint(heads, packed, order, i, j);
    }
  }

  lemma RightOfPlaced(heads: seq<Head>, packed: seq<Head>, order: seq<nat>, i: nat, l: nat)
    requires IsAutoOrder(heads, order) && IsPacked(heads, packed, order) && PositiveSizes(heads)
    requires i < |heads| && heads[i].positionExplicit && l < |order|
    ensures packed[i].area.Right() <= packed[order[l]].area.x
  {
    ReachGrows(heads, order, 0, l, ExplicitRight(heads));
    assert i !in order;
  }

  lemma PackedKeepsFacts(heads: seq<Head>, packed: seq<Head>, order: seq<nat>)
    requires IsAutoOrder(heads, order) && IsPacked(heads, packed, order)
    ensures forall i :: 0 <= i < |heads| ==>
              packed[i].positionExplicit == heads[i].positionExplicit
              && packed[i].area.w == heads[i].area.w && packed[i].area.h == heads[i].area.h
    ensures forall i :: 0 <= i < |heads| && heads[i].positionExplicit ==> packed[i] == heads[i]
    ensures ExplicitRight(packed) == ExplicitRight(heads)
  {
    forall i | 0 <= i < |heads|
      ensures packed[i].positionExplicit == heads[i].positionExplicit
              && packed[i].area.w == heads[i].area.w && packed[i].area.h == heads[i].area.h
              && (heads[i].positionExplicit ==> packed[i] == heads[i])
    {
      if i in order {
        var k :| 0 <= k < |order| && order[k] == i;
      }
    }
    SameExplicitRight(heads, packed);
  }

  lemma SameExplicitRight(a: seq<Head>, b: seq<Head>)
    requires |a| == |b|
    requires forall i :: 0 <= i < |a| ==>
               a[i].positionExplicit == b[i].positionExplicit && (a[i].positionExplicit ==> a[i] == b[i])
    ensures ExplicitRight(a) == ExplicitRight(b)
  {
    assert ExplicitRight(a) <= ExplicitRight(b) && ExplicitRight(b) <= ExplicitRight(a);
  }

  lemma {:induction false} SameReach(a: seq<Head>, b: seq<Head>, order: seq<nat>, k: nat, from: int)
    requires |a| == |b| && InRange(a, order) && k <= |order|
    requires forall i :: 0 <= i < |a| ==> a[i].area.w == b[i].area.w
    ensures Reach(a, order, k, from) == Reach(b, order, k, from)
  {
    if k > 0 {
      SameReach(a, b, order, k - 1, from);
    }
  }

  lemma PackedKeepsAutoOrder(heads: seq<Head>, packed: seq<Head>, order: seq<nat>)
    requires IsAutoOrder(heads, order) && IsPacked(heads, packed, order) && PositiveSizes(heads)
    ensures IsAutoOrder(packed, order)
  {
    PackedKeepsFacts(heads, packed, order);
    PackedIsDisjoint(heads, packed, order);
    assert PositiveSizes(packed);
    forall k, l | 0 <= k < l < |order|
      ensures Before(packed, order[k], order[l])
    {
      assert packed[order[k]].area.Right() <= packed[order[l]].area.x;
    }
  }

  lemma SameMembers(heads: seq<Head>, a: seq<nat>, b: seq<nat>)
    requires IsAutoOrder(heads, a) && IsAutoOrder(heads, b)
    ensures forall i :: i in a <==> i in b
  {
    assert forall i :: i in a ==> i < |heads|;
    assert forall i :: i in b ==> i < |heads|;
  }

  /** A packed layout is its own packing. */
  lemma RepackIsIdempotent(heads: seq<Head>, once: seq<Head>, twice: seq<Head>)
    requires PositiveSizes(heads) && IsRepacked(heads, once) && IsRepacked(once, twice)
    ensures twice == once
  {
    if LayoutNeedsRepack(heads) && LayoutNeedsRepack(once) {
      var order :| IsAutoOrder(heads, order) && IsPacked(heads, once, order);
      var again :| IsAutoOrder(once, again) && IsPacked(once, twice, again);
      PackedKeepsFacts(heads, once, order);
      PackedIsDisjoint(heads, once, order);
      PackedKeepsAutoOrder(heads, once, order);
      SameMembers(once, order, again);
      SortedIsUnique(once, order, again);
      PackedIsFixed(heads, once, twice, order);
    }
  }

  lemma PackedIsFixed(heads: seq<Head>, once: seq<Head>, twice: seq<Head>, order: seq<nat>)
    requires IsAutoOrder(heads, order) && IsPacked(heads, once, order) && IsPacked(once, twice, order)
    ensures twice == once
  {
    PackedKeepsFacts(heads, once, order);
    forall i | 0 <= i < |once|
      ensures twice[i] == once[i]
    {
      if i in order {
        var k :| 0 <= k < |order| && order[k] == i;
        SameReach(heads, once, order, k, ExplicitRight(heads));
      }
    }
  }

  lemma PackedIsNotDetached(heads: seq<Head>, packed: seq<Head>, order: seq<nat>, k: nat)
    requires IsAutoOrder(heads, order) && IsPacked(heads, packed, order) && PositiveSizes(heads) && k < |order|
    requires k > 0 || ExplicitRight(heads) == 0
    ensures !Detached(packed, order[k])
  {
    if k > 0 {
      var i, j, right := order[k], order[k - 1], ExplicitRight(heads);
      assert Before(heads, j, i);
      assert Reach(heads, order, k, right) == Reach(heads, order, k - 1, right) + heads[j].area.w;
      assert Adjoins(packed[i].area, packed[j].area);
    }
  }

  /** Placed heads lie over one another: no packing can help. */
  ghost predicate PlacedOverlap(heads: seq<Head>) {
    exists i, j :: && 0 <= i < j < |heads| && heads[i].positionExplicit && heads[j].positionExplicit
                   && heads[i].area.Overlaps(heads[j].area)
  }

  /** The leftmost of the heads nobody placed. */
  ghost predicate IsFirstAuto(heads: seq<Head>, i: nat) {
    && i < |heads| && !heads[i].positionExplicit
    && forall j :: 0 <= j < |heads| && j != i && !heads[j].positionExplicit ==> Before(heads, i, j)
  }

  /** Packed at the top, this head finds no placed head to its left. */
  ghost predicate Unmoored(heads: seq<Head>, i: nat)
    requires i < |heads|
  {
    && ExplicitRight(heads) > 0
    && !exists j :: && 0 <= j < |heads| && heads[j].positionExplicit && heads[j].area.Right() == ExplicitRight(heads)
                    && heads[j].area.y < heads[i].area.h && 0 < heads[j].area.Bottom()
  }

  lemma FirstIsFirst(heads: seq<Head>, order: seq<nat>, i: nat)
    requires IsAutoOrder(heads, order)
    ensures IsFirstAuto(heads, i) <==> order != [] && i == order[0]
  {
    if order != [] {
      assert order[0] in order;
      forall j | 0 <= j < |heads| && j != order[0] && !heads[j].positionExplicit
        ensures Before(heads, order[0], j)
      {
        var k := PlaceInOrder(heads, order, j);
      }
    }
    if IsFirstAuto(heads, i) {
      var k := PlaceInOrder(heads, order, i);
      assert k > 0 ==> Before(heads, order[0], i);
    }
  }

  lemma FirstIsDetachedIff(heads: seq<Head>, packed: seq<Head>, order: seq<nat>)
    requires IsAutoOrder(heads, order) && IsPacked(heads, packed, order) && PositiveSizes(heads) && order != []
    ensures order[0] < |heads| && (Detached(packed, order[0]) <==> Unmoored(heads, order[0]))
  {
    var i, right := order[0], ExplicitRight(heads);
    assert i in order;
    PackedKeepsFacts(heads, packed, order);
    assert packed[i].area == Rect(right, 0, heads[i].area.w, heads[i].area.h);
    forall j | 0 <= j < |packed| && j != i && !heads[j].positionExplicit
      ensures !Adjoins(packed[i].area, packed[j].area)
    {
      var l := PlaceInOrder(heads, order, j);
      PackedInOrder(heads, packed, order, 0, l);
      assert heads[i].area.w >= 1 && heads[j].area.w >= 1;
    }
    hide IsPacked, IsAutoOrder, ExplicitRight;
    if right != 0 && !Detached(packed, i) {
      var j :| 0 <= j < |packed| && j != i && Adjoins(packed[i].area, packed[j].area);
      assert heads[j] == packed[j];
    }
    if right != 0 && !Unmoored(heads, i) {
      var j :| && 0 <= j < |heads| && heads[j].positionExplicit && heads[j].area.Right() == right
               && heads[j].area.y < heads[i].area.h && 0 < heads[j].area.Bottom();
      assert packed[j] == heads[j] && Adjoins(packed[i].area, packed[j].area);
    }
  }

  /** A layout that needed packing still needs it afterwards exactly when two
      placed heads overlap or nothing placed lies against the first packed
      head: then packing cannot close the hole. */
  lemma RepackSettlesIff(heads: seq<Head>, after: seq<Head>)
    requires PositiveSizes(heads) && IsRepacked(heads, after) && LayoutNeedsRepack(heads)
    ensures LayoutNeedsRepack(after) <==>
              PlacedOverlap(heads) || exists i :: IsFirstAuto(heads, i) && Unmoored(heads, i)
  {
    var order :| IsAutoOrder(heads, order) && IsPacked(heads, after, order);
    hide LayoutNeedsRepack;
    OverlapsArePlaced(heads, after, order);
    DetachedIsFirst(heads, after, order);
    NeedsRepackMeans(after);
  }

  // One head the user placed far down, and one beside it that nobody placed.
  const lowHead := Head(true, Rect(0, 1000, 100, 100))
  const besideHead := Head(false, Rect(100, 0, 100, 100))

  lemma HoleLayout(heads: seq<Head>)
    requires heads == [lowHead, besideHead]
    ensures PositiveSizes(heads) && ExplicitRight(heads) == 100
    ensures IsFirstAuto(heads, 1) && SomeDetached(heads)
  {
    assert ExplicitRight(heads) == 100 by {
      assert heads[0].positionExplicit && heads[0].area.Right() == 100;
    }
    assert !Adjoins(heads[1].area, heads[0].area);
    assert Detached(heads, 1);
  }

  lemma HoleIsUnmoored(heads: seq<Head>)
    requires |heads| == 2 && heads[0] == lowHead && heads[1] == besideHead && ExplicitRight(heads) == 100
    ensures Unmoored(heads, 1)
  {
    hide ExplicitRight;
    forall j | 0 <= j < |heads| && heads[j].positionExplicit
      ensures heads[j].area.y >= heads[1].area.h
    {
      assert j == 0;
    }
  }

  /** A layout with a hole that no packing closes: the second head starts where
      the first ends, but a thousand pixels above it. */
  lemma HoleStays(after: seq<Head>)
    requires IsRepacked([lowHead, besideHead], after)
    ensures LayoutNeedsRepack([lowHead, besideHead]) && LayoutNeedsRepack(after)
  {
    var heads := [lowHead, besideHead];
    hide *;
    HoleLayout(heads);
    HoleIsUnmoored(heads);
    NeedsRepackMeans(heads);
    RepackSettlesIff(heads, after);
  }

  ghost predicate SomeOverlap(heads: seq<Head>) {
    exists i, j :: 0 <= i < j < |heads| && heads[i].area.Overlaps(heads[j].area)
  }

  ghost predicate SomeDetached(heads: seq<Head>) {
    exists i :: 0 <= i < |heads| && Detached(heads, i)
  }

  lemma NeedsRepackMeans(heads: seq<Head>)
    ensures LayoutNeedsRepack(heads) <==> SomeOverlap(heads) || SomeDetached(heads)
  {
  }

  lemma OverlapsArePlaced(heads: seq<Head>, packed: seq<Head>, order: seq<nat>)
    requires IsAutoOrder(heads, order) && IsPacked(heads, packed, order) && PositiveSizes(heads)
    ensures SomeOverlap(packed) <==> PlacedOverlap(heads)
  {
    PackedKeepsFacts(heads, packed, order);
    assert |packed| == |heads|;
    hide IsPacked, IsAutoOrder, PositiveSizes, ExplicitRight;
    if SomeOverlap(packed) {
      var i, j :| 0 <= i < j < |packed| && packed[i].area.Overlaps(packed[j].area);
      OverlapIsPlaced(heads, packed, order, i, j);
    }
    if PlacedOverlap(heads) {
      var i, j :| && 0 <= i < j < |heads| && heads[i].positionExplicit && heads[j].positionExplicit
                  && heads[i].area.Overlaps(heads[j].area);
      assert packed[i].area.Overlaps(packed[j].area);
    }
  }

  lemma OverlapIsPlaced(heads: seq<Head>, packed: seq<Head>, order: seq<nat>, i: nat, j: nat)
    requires IsAutoOrder(heads, order) && IsPacked(heads, packed, order) && PositiveSizes(heads)
    requires i < j < |packed| && packed[i].area.Overlaps(packed[j].area)
    ensures PlacedOverlap(heads)
  {
    PackedKeepsFacts(heads, packed, order);
    assert |packed| == |heads|;
    hide IsPacked, IsAutoOrder, PositiveSizes, ExplicitRight;
    if !heads[j].positionExplicit {
      PairIsDisjoint(heads, packed, order, i, j);
    } else if !heads[i].positionExplicit {
      PairIsDisjoint(heads, packed, order, j, i);
    } else {
      assert heads[i].area.Overlaps(heads[j].area);
    }
  }

  lemma DetachedIsFirst(heads: seq<Head>, packed: seq<Head>, order: seq<nat>)
    requires IsAutoOrder(heads, order) && IsPacked(heads, packed, order) && PositiveSizes(heads)
    ensures SomeDetached(packed) <==> exists i :: IsFirstAuto(heads, i) && Unmoored(heads, i)
  {
    PackedKeepsFacts(heads, packed, order);
    hide IsPacked, IsAutoOrder, PositiveSizes, Detached, Unmoored, ExplicitRight;
    if order != [] {
      FirstIsFirst(heads, order, order[0]);
      FirstIsDetachedIff(heads, packed, order);
    }
    if i: nat :| i < |packed| && Detached(packed, i) {
      DetachedIsAuto(packed, i);
      var k := PlaceInOrder(heads, order, i);
      if k > 0 {
        PackedIsNotDetached(heads, packed, order, k);
      }
    }
    if i: nat :| IsFirstAuto(heads, i) && Unmoored(heads, i) {
      FirstIsFirst(heads, order, i);
    }
  }

  lemma DetachedIsAuto(heads: seq<Head>, i: nat)
    requires i < |heads| && Detached(heads, i)
    ensures !heads[i].positionExplicit
  {
  }

  /** Where nobody placed a head, one repack leaves nothing to repack. */
  lemma RepackSettles(heads: seq<Head>, after: seq<Head>)
    requires PositiveSizes(heads) && IsRepacked(heads, after)
    requires forall i :: 0 <= i < |heads| ==> !heads[i].positionExplicit
    ensures !LayoutNeedsRepack(after)
  {
    if LayoutNeedsRepack(heads) {
      var order :| IsAutoOrder(heads, order) && IsPacked(heads, after, order);
      PackedIsDisjoint(heads, after, order);
      hide IsPacked, IsAutoOrder, Detached, ExplicitRight;
      forall i | 0 <= i < |after|
        ensures !Detached(after, i)
      {
        var k := PlaceInOrder(heads, order, i);
        PackedIsNotDetached(heads, after, order, k);
      }
    }
  }

  lemma PairKeepsOrder(heads: seq<Head>, packed: seq<Head>, order: seq<nat>, k: nat, l: nat)
    requires IsAutoOrder(heads, order) && IsPacked(heads, packed, order) && PositiveSizes(heads) && k < l < |order|
    ensures order[k] < |heads| && order[l] < |heads| && |packed| == |heads|
    ensures Before(heads, order[k], order[l]) && Before(packed, order[k], order[l])
  {
    PackedInOrder(heads, packed, order, k, l);
    assert Before(heads, order[k], order[l]);
    PackedKeepsFacts(heads, packed, order);
  }

  /** Left-to-right order is kept, also between heads that shared an edge. */
  lemma RepackKeepsOrder(heads: seq<Head>, after: seq<Head>, i: nat, j: nat)
    requires PositiveSizes(heads) && IsRepacked(heads, after)
    requires i < |heads| && j < |heads| && !heads[i].positionExplicit && !heads[j].positionExplicit
    ensures Before(heads, i, j) <==> Before(after, i, j)
  {
    hide LayoutNeedsRepack, IsPacked, IsAutoOrder, PositiveSizes;
    if LayoutNeedsRepack(heads) && i != j {
      var order :| IsAutoOrder(heads, order) && IsPacked(heads, after, order);
      var k := PlaceInOrder(heads, order, i);
      var l := PlaceInOrder(heads, order, j);
      if k < l {
        PairKeepsOrder(heads, after, order, k, l);
      } else {
        PairKeepsOrder(heads, after, order, l, k);
      }
    }
  }

  /** The first k heads of the order are packed, the others as they were. */
  ghost predicate PartlyPacked(before: seq<Head>, now: seq<Head>, order: seq<nat>, k: nat, from: int)
  {
    && |now| == |before| && InRange(before, order) && k <= |order|
    && (forall i :: 0 <= i < |now| && i !in order ==> now[i] == before[i])
    && (forall l :: k <= l < |order| ==> now[order[l]] == before[order[l]])
    && (forall l :: 0 <= l < k ==> now[order[l]] == before[order[l]].At(Reach(before, order, l, from), 0))
  }

  ghost predicate Reachable(before: seq<Head>, order: seq<nat>, k: nat, from: int, x: int) {
    InRange(before, order) && k <= |order| && x == Reach(before, order, k, from)
  }

  lemma PartlyPackedStarts(before: seq<Head>, order: seq<nat>, from: int)
    requires InRange(before, order)
    ensures PartlyPacked(before, before, order, 0, from) && Reachable(before, order, 0, from, from)
  {
  }

  lemma PartlyPackedStep(before: seq<Head>, now: seq<Head>, order: seq<nat>, k: nat, from: int, x: int)
    requires PartlyPacked(before, now, order, k, from) && Sorted(before, order) && k < |order|
    requires Reachable(before, order, k, from, x)
    ensures order[k] < |now| && now[order[k]] == before[order[k]]
    ensures PartlyPacked(before, now[order[k] := now[order[k]].At(x, 0)], order, k + 1, from)
    ensures Reachable(before, order, k + 1, from, x + now[order[k]].area.w)
  {
    var i := order[k];
    var next := now[i := now[i].At(x, 0)];
    forall l | 0 <= l < |order| && l != k
      ensures order[l] != i
    {
      assert if l < k then Before(before, order[l], order[k]) else Before(before, order[k], order[l]);
    }
    hide Sorted;
  }

  lemma PartlyPackedEnds(before: seq<Head>, now: seq<Head>, order: seq<nat>, from: int)
    requires PartlyPacked(before, now, order, |order|, from) && from == ExplicitRight(before)
    ensures IsPacked(before, now, order)
  {
  }

  // ------------------------------------------------------------ the compositor's side

  class OutputSpace {
    var heads: seq<Head>

    method RepackAutoOutputs()
      modifies this
      ensures IsRepacked(old(heads), heads)
    {
      if !LayoutNeedsRepack(heads) {
        return;
      }
      var explicitRight, auto := CollectAuto();
      hide LayoutNeedsRepack, ExplicitRight, Sorted, IsPacked;
      PackAuto(explicitRight, auto);
    }

    /** Moves a head that is not there yet. */
    method MoveTo(i: nat, x: int) returns (width: int)
      requires i < |heads|
      modifies this
      ensures heads == old(heads)[i := old(heads)[i].At(x, 0)] && width == old(heads)[i].area.w
    {
      width := heads[i].area.w;
      if heads[i].area.x != x || heads[i].area.y != 0 {
        heads := heads[i := heads[i].At(x, 0)];
      }
    }

    method PackAuto(explicitRight: int, auto: seq<nat>)
      requires explicitRight == ExplicitRight(heads) && Sorted(heads, auto)
      modifies this
      ensures IsPacked(old(heads), heads, auto)
    {
      ghost var before := heads;
      PartlyPackedStarts(before, auto, explicitRight);
      hide *;
      var x, k := explicitRight, 0;
      while k < |auto|
        invariant k <= |auto| && Reachable(before, auto, k, explicitRight, x)
        invariant PartlyPacked(before, heads, auto, k, explicitRight)
      {
        PartlyPackedStep(before, heads, auto, k, explicitRight, x);
        var width := MoveTo(auto[k], x);
        x := x + width;
        k := k + 1;
      }
      PartlyPackedEnds(before, heads, auto, explicitRight);
    }

    method CollectAuto() returns (explicitRight: int, auto: seq<nat>)
      ensures explicitRight == ExplicitRight(heads) && IsAutoOrder(heads, auto)
    {
      explicitRight, auto := 0, [];
      for i := 0 to |heads|
        invariant explicitRight == ExplicitRight(heads[..i])
        invariant Sorted(heads, auto)
        invariant forall j: nat :: j in auto <==> j < i && !heads[j].positionExplicit
      {
        assert heads[..i + 1][..i] == heads[..i];
        if heads[i].positionExplicit {
          explicitRight := Max(explicitRight, heads[i].area.Right());
        } else {
          auto := InsertSorted(heads, auto, i);
        }
      }
      assert heads[..|heads|] == heads;
    }
  }
}
