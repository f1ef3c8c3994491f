/** The skyline as plain geometry: a sequence of corner points read as a height function over integer columns.

    Nothing here knows about linked nodes. The packer in SkylinePacker.dfy keeps a linked list whose
    points form such a sequence and is proved against the definitions below.
 */
module Skyline {

  /** Left end of a flat stretch at height y; the stretch runs to the x of the next point. */
  datatype Point = Point(x: int, y: int)

  /** A placed rectangle covering the columns [x, x+w) and the rows [y, y+h). */
  datatype Box = Box(x: int, y: int, w: int, h: int)

  function Max(a: int, b: int): int {
    if a < b then b else a
  }

  // ---------- Well-formed skylines ----------

  ghost predicate Ordered(s: seq<Point>) {
    forall i, j :: 0 <= i < j < |s| ==> s[i].x < s[j].x
  }

  /** Strictly increasing from 0 to a sentinel at `width`; the sentinel's own height is never read. */
  ghost predicate IsSkyline(s: seq<Point>, width: int) {
    && 2 <= |s|
    && s[0].x == 0
    && s[|s| - 1].x == width
    && Ordered(s)
    && forall i :: 0 <= i < |s| - 1 ==> 0 <= s[i].y
  }

  // ---------- The height function ----------

  /** Height of the skyline over column x. */
  function HeightAt(s: seq<Point>, x: int): int {
    if s == [] then 0
    else if |s| == 1 || x < s[1].x then s[0].y
    else HeightAt(s[1..], x)
  }

  /** Highest skyline over the columns [x, x+w), and 0 when there are none. */
  function MaxHeight(s: seq<Point>, x: int, w: nat): int {
    if w == 0 then 0 else Max(MaxHeight(s, x, w - 1), HeightAt(s, x + w - 1))
  }

  /** Area between the skyline and the row `top` over the columns [x, x+w). */
  function WastedArea(s: seq<Point>, x: int, w: nat, top: int): int {
    if w == 0 then 0 else WastedArea(s, x, w - 1, top) + (top - HeightAt(s, x + w - 1))
  }

  lemma IndexOrder(s: seq<Point>, i: nat, j: nat)
    requires Ordered(s) && i < |s| && j < |s|
    ensures i < j <==> s[i].x < s[j].x
  {
    assert i == j || (i < j && s[i].x < s[j].x) || (j < i && s[j].x < s[i].x);
  }

  lemma {:induction false} HeightInSegment(s: seq<Point>, i: nat, x: int)
    requires Ordered(s)
    requires i + 1 < |s| && s[i].x <= x < s[i + 1].x
    ensures HeightAt(s, x) == s[i].y
  {
    if i > 0 {
      assert s[1].x <= x by { if i > 1 { assert s[1].x < s[i].x; } }
      HeightInSegment(s[1..], i - 1, x);
    }
  }

  /** Every column of the target lies in exactly one segment. */
  lemma SegmentOf(s: seq<Point>, width: int, x: int) returns (i: nat)
    requires IsSkyline(s, width) && 0 <= x < width
    ensures i + 1 < |s| && s[i].x <= x < s[i + 1].x
    ensures HeightAt(s, x) == s[i].y
  {
    i := 0;
    while s[i + 1].x <= x
      invariant i + 1 < |s| && s[i].x <= x
      decreases |s| - i
    {
      i := i + 1;
    }
    HeightInSegment(s, i, x);
  }

  // ---------- MaxHeight is the least upper bound of the heights ----------

  lemma {:induction false} MaxHeightBounds(s: seq<Point>, x: int, w: nat)
    ensures 0 <= MaxHeight(s, x, w)
    ensures forall c :: x <= c < x + w ==> HeightAt(s, c) <= MaxHeight(s, x, w)
  {
    if w > 0 {
      MaxHeightBounds(s, x, w - 1);
    }
  }

  lemma {:induction false} MaxHeightLeast(s: seq<Point>, x: int, w: nat, bound: int)
    requires 0 <= bound
    requires forall c :: x <= c < x + w ==> HeightAt(s, c) <= bound
    ensures MaxHeight(s, x, w) <= bound
  {
    if w > 0 {
      MaxHeightLeast(s, x, w - 1, bound);
    }
  }

  /** Extending a span by k columns of one height. */
  lemma {:induction false} MaxHeightFlat(s: seq<Point>, x: int, w: nat, k: nat, y: int)
    requires k > 0
    requires forall c :: x + w <= c < x + w + k ==> HeightAt(s, c) == y
    ensures MaxHeight(s, x, w + k) == Max(MaxHeight(s, x, w), y)
  {
    if k > 1 {
      MaxHeightFlat(s, x, w, k - 1, y);
    }
  }

  lemma {:induction false} WastedAreaFlat(s: seq<Point>, x: int, w: nat, k: nat, y: int, top: int)
    requires forall c :: x + w <= c < x + w + k ==> HeightAt(s, c) == y
    ensures WastedArea(s, x, w + k, top) == WastedArea(s, x, w, top) + k * (top - y)
  {
    if k > 0 {
      WastedAreaFlat(s, x, w, k - 1, y, top);
      assert HeightAt(s, x + (w + k) - 1) == y;
      assert WastedArea(s, x, w + k, top) == WastedArea(s, x, w + (k - 1), top) + (top - y);
      assert (k - 1) * (top - y) + (top - y) == k * (top - y);
    }
  }

  /** Raising the reference row adds one unit of area per column and row. */
  lemma {:induction false} WastedAreaRaise(s: seq<Point>, x: int, w: nat, low: int, high: int)
    ensures WastedArea(s, x, w, high) == WastedArea(s, x, w, low) + w * (high - low)
  {
    if w > 0 {
      WastedAreaRaise(s, x, w - 1, low, high);
      assert (w - 1) * (high - low) + (high - low) == w * (high - low);
    }
  }

  // ---------- Where a rectangle may go ----------

  /** Sliding a span left to the start of its first segment never raises what it must clear. */
  lemma SlideLeft(s: seq<Point>, width: int, c: int, w: nat) returns (i: nat)
    requires IsSkyline(s, width)
    requires 0 <= c && 0 < w && c + w <= width
    ensures i + 1 < |s| && s[i].x <= c < s[i + 1].x
    ensures MaxHeight(s, s[i].x, w) <= MaxHeight(s, c, w)
  {
    i := SegmentOf(s, width, c);
    MaxHeightBounds(s, c, w);
    forall d | s[i].x <= d < s[i].x + w
      ensures HeightAt(s, d) <= MaxHeight(s, c, w)
    {
      if d < s[i + 1].x {
        HeightInSegment(s, i, d);
        assert HeightAt(s, d) == HeightAt(s, c);
      }
    }
    MaxHeightLeast(s, s[i].x, w, MaxHeight(s, c, w));
  }

  /** No integer position inside the target lets a span of width w rest lower than y. */
  ghost predicate LowestOver(s: seq<Point>, width: int, w: nat, y: int) {
    forall c {:trigger MaxHeight(s, c, w)} :: 0 <= c && c + w <= width ==> y <= MaxHeight(s, c, w)
  }

  /** (x, y) is the leftmost of the lowest positions, over every integer x and not only node starts. */
  ghost predicate LeftmostLowest(s: seq<Point>, width: int, w: nat, x: int, y: int) {
    && 0 <= x && x + w <= width
    && y == MaxHeight(s, x, w)
    && LowestOver(s, width, w, y)
    && forall c {:trigger MaxHeight(s, c, w)} :: 0 <= c < x ==> y < MaxHeight(s, c, w)
  }

  /** It is enough to try the node starts: the best of them is best over every integer position. */
  lemma NodeStartsSuffice(s: seq<Point>, width: int, w: nat, i: nat)
    requires IsSkyline(s, width) && 0 < w
    requires i + 1 < |s| && s[i].x + w <= width
    requires forall j :: 0 <= j < i ==> MaxHeight(s, s[i].x, w) < MaxHeight(s, s[j].x, w)
    requires forall j :: 0 <= j < |s| && s[j].x + w <= width ==> MaxHeight(s, s[i].x, w) <= MaxHeight(s, s[j].x, w)
    ensures LeftmostLowest(s, width, w, s[i].x, MaxHeight(s, s[i].x, w))
  {
    var y := MaxHeight(s, s[i].x, w);
    assert 0 <= s[i].x by { if i > 0 { assert s[0].x < s[i].x; } }
    forall c {:trigger MaxHeight(s, c, w)} | 0 <= c && c + w <= width
      ensures y <= MaxHeight(s, c, w)
      ensures c < s[i].x ==> y < MaxHeight(s, c, w)
    {
      var j := SlideLeft(s, width, c, w);
      if c < s[i].x {
        IndexOrder(s, j, i);
      }
    }
  }

  /** The bottom-left position is a function of the height function alone. */
  lemma LeftmostLowestIsUnique(s: seq<Point>, t: seq<Point>, width: int, w: nat, x: int, y: int, x': int, y': int)
    requires forall c :: 0 <= c < width ==> HeightAt(s, c) == HeightAt(t, c)
    requires LeftmostLowest(s, width, w, x, y) && LeftmostLowest(t, width, w, x', y')
    ensures x == x' && y == y'
  {
    SameHeights(s, t, x, w);
    SameHeights(s, t, x', w);
  }

  lemma {:induction false} SameHeights(s: seq<Point>, t: seq<Point>, x: int, w: nat)
    requires forall c :: x <= c < x + w ==> HeightAt(s, c) == HeightAt(t, c)
    ensures MaxHeight(s, x, w) == MaxHeight(t, x, w)
  {
    if w > 0 {
      SameHeights(s, t, x, w - 1);
    }
  }

  // ---------- Raising the skyline ----------

  /** Index of the first node handed on when a node at x is inserted after or in place of node i. */
  function KeepCount(s: seq<Point>, i: nat, x: int): (k: nat)
    requires i < |s|
  {
    if s[i].x < x then i + 1 else i
  }

  /** First index from k on whose successor starts beyond `right`, or the last index. */
  function StopAt(s: seq<Point>, k: nat, right: int): (j: nat)
    requires k < |s|
    ensures k <= j < |s|
    ensures j + 1 < |s| ==> right < s[j + 1].x
    ensures forall m :: k < m <= j ==> s[m].x <= right
    decreases |s| - k
  {
    if k + 1 < |s| && s[k + 1].x <= right then StopAt(s, k + 1, right) else k
  }

  /** The skyline after putting a node at x, top on top of segment i for a rectangle of width w. */
  function Raise(s: seq<Point>, i: nat, x: int, w: nat, top: int): seq<Point>
    requires i + 1 < |s|
  {
    var k := KeepCount(s, i, x);
    var j := StopAt(s, k, x + w);
    s[..k] + [Point(x, top)] + [Point(Max(s[j].x, x + w), s[j].y)] + s[j + 1..]
  }

  /** Right end of the stretch that is really raised. It exceeds x+w only when the span starts inside a
      segment and ends inside the same one. */
  function RaisedTo(s: seq<Point>, i: nat, x: int, w: nat): int
    requires i + 1 < |s|
  {
    if s[i].x < x && x + w < s[i + 1].x then s[i + 1].x else x + w
  }

  ghost predicate CanRaise(s: seq<Point>, width: int, i: nat, x: int, w: nat) {
    && IsSkyline(s, width)
    && 0 < w && x + w <= width
    && i + 1 < |s| && s[i].x <= x < s[i + 1].x
  }

  lemma RaiseIsSkyline(s: seq<Point>, width: int, i: nat, x: int, w: nat, top: int)
    requires CanRaise(s, width, i, x, w) && 0 <= top
    ensures IsSkyline(Raise(s, i, x, w, top), width)
  {
    var k := KeepCount(s, i, x);
    var j := StopAt(s, k, x + w);
    var right := Point(Max(s[j].x, x + w), s[j].y);
    var r := Raise(s, i, x, w, top);
    assert |r| == k + 2 + (|s| - (j + 1));
    forall m | 0 <= m < |r| - 1 ensures r[m].x < r[m + 1].x && 0 <= r[m].y {
      if m < k {
        assert r[m] == s[m];
      } else if m == k {
        assert r[m] == Point(x, top) && r[m + 1] == right;
      } else {
        assert r[m] == if m == k + 1 then right else s[m - (k + 2) + j + 1];
        assert r[m + 1] == s[(m + 1) - (k + 2) + j + 1];
      }
    }
    StepwiseOrdered(r);
    assert r[0].x == 0 by {
      if k == 0 { assert s[0].x == x; }
    }
    if j + 1 < |s| {
      assert r[|r| - 1] == s[|s| - 1];
    } else {
      assert r[|r| - 1] == right;
    }
  }

  lemma {:induction false} StepwiseOrdered(s: seq<Point>)
    requires forall m :: 0 <= m < |s| - 1 ==> s[m].x < s[m + 1].x
    ensures Ordered(s)
  {
    forall i, j | 0 <= i < j < |s| ensures s[i].x < s[j].x {
      StepwiseLess(s, i, j);
    }
  }

  lemma {:induction false} StepwiseLess(s: seq<Point>, i: nat, j: nat)
    requires forall m :: 0 <= m < |s| - 1 ==> s[m].x < s[m + 1].x
    requires i < j < |s|
    ensures s[i].x < s[j].x
    decreases j
  {
    assert s[j - 1].x < s[j - 1 + 1].x;
    if i < j - 1 {
      StepwiseLess(s, i, j - 1);
    }
  }

  /** The list splice is a point update of the height function: `top` on the raised stretch, and no change elsewhere. */
  lemma RaiseHeights(s: seq<Point>, width: int, i: nat, x: int, w: nat, top: int)
    requires CanRaise(s, width, i, x, w) && 0 <= top
    ensures forall c :: 0 <= c < width ==>
              HeightAt(Raise(s, i, x, w, top), c) == if x <= c < RaisedTo(s, i, x, w) then top else HeightAt(s, c)
  {
    RaiseIsSkyline(s, width, i, x, w, top);
    forall c | 0 <= c < width
      ensures HeightAt(Raise(s, i, x, w, top), c) == if x <= c < RaisedTo(s, i, x, w) then top else HeightAt(s, c)
    {
      RaiseHeightAt(s, width, i, x, w, top, c);
    }
  }

  lemma RaiseHeightAt(s: seq<Point>, width: int, i: nat, x: int, w: nat, top: int, c: int)
    requires CanRaise(s, width, i, x, w) && 0 <= c < width
    requires IsSkyline(Raise(s, i, x, w, top), width)
    ensures HeightAt(Raise(s, i, x, w, top), c) == if x <= c < RaisedTo(s, i, x, w) then top else HeightAt(s, c)
  {
    var k := KeepCount(s, i, x);
    var j := StopAt(s, k, x + w);
    var right := Max(s[j].x, x + w);
    var r := Raise(s, i, x, w, top);
    RaisedEnd(s, i, x, w);
    assert r[k] == Point(x, top) && r[k + 1] == Point(right, s[j].y);
    if c < x {
      LeftOfRaise(s, width, i, x, w, top, c);
    } else if c < right {
      HeightInSegment(r, k, c);
    } else {
      RightOfRaise(s, width, i, x, w, top, c);
    }
  }

  lemma RaisedEnd(s: seq<Point>, i: nat, x: int, w: nat)
    requires Ordered(s) && 0 < w && i + 1 < |s| && s[i].x <= x < s[i + 1].x
    ensures var k := KeepCount(s, i, x);
            RaisedTo(s, i, x, w) == Max(s[StopAt(s, k, x + w)].x, x + w)
  {
    var k := KeepCount(s, i, x);
    var j := StopAt(s, k, x + w);
    assert j == k || s[j].x <= x + w;
    IndexOrder(s, k, j);
  }

  lemma LeftOfRaise(s: seq<Point>, width: int, i: nat, x: int, w: nat, top: int, c: int)
    requires CanRaise(s, width, i, x, w) && 0 <= c < x
    requires Ordered(Raise(s, i, x, w, top))
    ensures HeightAt(Raise(s, i, x, w, top), c) == HeightAt(s, c)
  {
    var k := KeepCount(s, i, x);
    var r := Raise(s, i, x, w, top);
    var m := SegmentOf(s, width, c);
    IndexOrder(s, m, k);
    assert r[m] == s[m] && r[k] == Point(x, top);
    assert c < r[m + 1].x;
    HeightInSegment(r, m, c);
  }

  lemma RightOfRaise(s: seq<Point>, width: int, i: nat, x: int, w: nat, top: int, c: int)
    requires CanRaise(s, width, i, x, w) && RaisedTo(s, i, x, w) <= c < width
    requires Ordered(Raise(s, i, x, w, top))
    ensures HeightAt(Raise(s, i, x, w, top), c) == HeightAt(s, c)
  {
    var k := KeepCount(s, i, x);
    var j := StopAt(s, k, x + w);
    var r := Raise(s, i, x, w, top);
    RaisedEnd(s, i, x, w);
    var m := SegmentOf(s, width, c);
    IndexOrder(s, j, m + 1);
    var n := m - j + (k + 1);
    assert r[k + 1] == Point(Max(s[j].x, x + w), s[j].y);
    assert r[n + 1] == s[m + 1];
    assert m > j ==> r[n] == s[m];
    HeightInSegment(r, n, c);
  }

  /** The height function changes to `top` over the columns [x, x+w) and nowhere else. */
  ghost predicate PointUpdate(s: seq<Point>, t: seq<Point>, width: int, x: int, w: nat, top: int) {
    forall c :: 0 <= c < width ==> HeightAt(t, c) == if x <= c < x + w then top else HeightAt(s, c)
  }

  /** A raise above what was there is a point update exactly if the span starts at its node or reaches the next one. */
  lemma PointUpdateIff(s: seq<Point>, width: int, i: nat, x: int, w: nat, top: int)
    requires CanRaise(s, width, i, x, w) && 0 <= top && s[i].y < top
    ensures PointUpdate(s, Raise(s, i, x, w, top), width, x, w, top) <==> x == s[i].x || s[i + 1].x <= x + w
  {
    RaiseHeights(s, width, i, x, w, top);
    var t, c := Raise(s, i, x, w, top), x + w;
    IndexOrder(s, 0, i);
    IndexOrder(s, i + 1, |s| - 1);
    if s[i].x < x && c < s[i + 1].x {
      HeightInSegment(s, i, c);
      assert HeightAt(t, c) == top;
    }
  }

  // ---------- Placed boxes and the skyline above them ----------

  ghost predicate Disjoint(a: Box, b: Box) {
    a.x + a.w <= b.x || b.x + b.w <= a.x || a.y + a.h <= b.y || b.y + b.h <= a.y
  }

  ghost predicate Inside(b: Box, width: int, height: int) {
    0 < b.w && 0 < b.h && 0 <= b.x && b.x + b.w <= width && 0 <= b.y && b.y + b.h <= height
  }

  ghost predicate Covered(s: seq<Point>, b: Box) {
    forall c :: b.x <= c < b.x + b.w ==> b.y + b.h <= HeightAt(s, c)
  }

  /** The packing invariant: boxes inside the target, pairwise disjoint, and nowhere above the skyline. */
  ghost predicate IsPacking(s: seq<Point>, placed: seq<Box>, width: int, height: int) {
    && (forall i :: 0 <= i < |placed| ==> Inside(placed[i], width, height) && Covered(s, placed[i]))
    && (forall i, j :: 0 <= i < j < |placed| ==> Disjoint(placed[i], placed[j]))
  }

  lemma EmptyTarget(width: int, height: int, sentinel: int)
    requires 1 <= width
    ensures IsSkyline([Point(0, 0), Point(width, sentinel)], width)
    ensures IsPacking([Point(0, 0), Point(width, sentinel)], [], width, height)
  {
  }

  /** A box resting on the skyline over a span at least as wide as itself keeps the packing invariant. */
  lemma PlaceKeepsPacking(s: seq<Point>, placed: seq<Box>, width: int, height: int, i: nat, b: Box, span: nat, top: int)
    requires IsPacking(s, placed, width, height)
    requires 0 < b.w <= span && 0 < b.h
    requires CanRaise(s, width, i, b.x, b.w)
    requires b.y == MaxHeight(s, b.x, span) && top == b.y + b.h <= height
    ensures IsSkyline(Raise(s, i, b.x, b.w, top), width)
    ensures IsPacking(Raise(s, i, b.x, b.w, top), placed + [b], width, height)
  {
    var r := Raise(s, i, b.x, b.w, top);
    MaxHeightBounds(s, b.x, span);
    RaiseIsSkyline(s, width, i, b.x, b.w, top);
    RaiseHeights(s, width, i, b.x, b.w, top);
    assert 0 <= b.x by { if i > 0 { assert s[0].x < s[i].x; } }
    assert Covered(r, b) && Inside(b, width, height);
    forall m | 0 <= m < |placed| ensures Covered(r, placed[m]) && Disjoint(placed[m], b) {
      var p := placed[m];
      assert Inside(p, width, height) && Covered(s, p);
      forall c | p.x <= c < p.x + p.w ensures p.y + p.h <= HeightAt(r, c) {
        RaisedStretchWasLow(s, width, i, b, span, height, c);
      }
      if p.x < b.x + b.w && b.x < p.x + p.w {
        var c := Max(p.x, b.x);
        assert p.y + p.h <= HeightAt(s, c) <= b.y;
      }
    }
  }

  /** Every column really raised was at most b.y high, also beyond the right edge of b. */
  lemma RaisedStretchWasLow(s: seq<Point>, width: int, i: nat, b: Box, span: nat, height: int, c: int)
    requires 0 < b.w <= span && 0 < b.h
    requires CanRaise(s, width, i, b.x, b.w) && b.y == MaxHeight(s, b.x, span) && 0 <= c < width
    ensures b.x <= c < RaisedTo(s, i, b.x, b.w) ==> HeightAt(s, c) <= b.y
  {
    MaxHeightBounds(s, b.x, span);
    if b.x <= c < RaisedTo(s, i, b.x, b.w) && b.x + b.w <= c {
      HeightInSegment(s, i, c);
      HeightInSegment(s, i, b.x);
      assert HeightAt(s, b.x) <= b.y;
    }
  }

  // ---------- The skyline only rises ----------

  ghost predicate Rises(s: seq<Point>, t: seq<Point>, width: int) {
    forall c :: 0 <= c < width ==> HeightAt(s, c) <= HeightAt(t, c)
  }

  lemma RaiseRises(s: seq<Point>, width: int, i: nat, b: Box, span: nat)
    requires 0 < b.w <= span && 0 < b.h
    requires CanRaise(s, width, i, b.x, b.w) && b.y == MaxHeight(s, b.x, span)
    ensures Rises(s, Raise(s, i, b.x, b.w, b.y + b.h), width)
  {
    MaxHeightBounds(s, b.x, span);
    RaiseHeights(s, width, i, b.x, b.w, b.y + b.h);
    forall c | 0 <= c < width ensures HeightAt(s, c) <= HeightAt(Raise(s, i, b.x, b.w, b.y + b.h), c) {
      RaisedStretchWasLow(s, width, i, b, span, 0, c);
    }
  }

  lemma {:induction false} MaxHeightRises(s: seq<Point>, t: seq<Point>, width: int, x: int, w: nat)
    requires Rises(s, t, width) && 0 <= x && x + w <= width
    ensures MaxHeight(s, x, w) <= MaxHeight(t, x, w)
  {
    if w > 0 {
      MaxHeightRises(s, t, width, x, w - 1);
    }
  }

  // ---------- How many nodes a skyline can have ----------

  /** Corner points sit at distinct integer columns, so a skyline of this width has at most width+1 of them. */
  lemma SkylineLength(s: seq<Point>, width: int)
    requires IsSkyline(s, width)
    ensures |s| <= width + 1
  {
    OrderedGap(s, 0, |s| - 1);
  }

  lemma {:induction false} OrderedGap(s: seq<Point>, i: nat, j: nat)
    requires Ordered(s) && i <= j < |s|
    ensures j - i <= s[j].x - s[i].x
    decreases j
  {
    if i < j {
      OrderedGap(s, i, j - 1);
    }
  }
}
