/** Packing an array of rectangles: sort by height, place one by one, sort back, set the flags. */
module PackRects {
  import opened Skyline
  import opened SkylinePacker

  datatype Rect = Rect(id: int, w: coord, h: coord, x: coord, y: coord, wasPacked: int)

  // ---------- The two comparators ----------

  function HeightCompare(p: Rect, q: Rect): int {
    if p.h > q.h then -1
    else if p.h < q.h then 1
    else if p.w > q.w then -1
    else if p.w < q.w then 1 else 0
  }

  function OriginalOrder(p: Rect, q: Rect): int {
    if p.wasPacked < q.wasPacked then -1
    else if p.wasPacked > q.wasPacked then 1 else 0
  }

  /** Which comparator a sort is called with. */
  datatype SortOrder = ByHeight | ByOriginalPosition

  function Compare(order: SortOrder, p: Rect, q: Rect): int {
    match order
    case ByHeight => HeightCompare(p, q)
    case ByOriginalPosition => OriginalOrder(p, q)
  }

  /** What a library sort demands of its comparator: a total preorder. */
  lemma CompareIsPreorder(order: SortOrder, p: Rect, q: Rect, r: Rect)
    ensures Compare(order, p, q) <= 0 || Compare(order, q, p) <= 0
    ensures Compare(order, p, q) <= 0 && Compare(order, q, r) <= 0 ==> Compare(order, p, r) <= 0
  {
  }

  /** The comparator is the lexicographic order "taller first, then wider first". */
  lemma HeightCompareIsLexicographic(p: Rect, q: Rect)
    ensures HeightCompare(p, q) <= 0 <==> p.h > q.h || (p.h == q.h && p.w >= q.w)
    ensures HeightCompare(p, q) == -HeightCompare(q, p)
    ensures HeightCompare(p, q) == 0 <==> p.h == q.h && p.w == q.w
  {
  }

  // ---------- The library sort, known only by its contract ----------

  predicate Sorted(s: seq<Rect>, order: SortOrder) {
    forall i, j :: 0 <= i < j < |s| ==> Compare(order, s[i], s[j]) <= 0
  }

  predicate SortedPermutation(s: seq<Rect>, original: seq<Rect>, order: SortOrder) {
    multiset(s) == multiset(original) && Sorted(s, order)
  }

  /** Every finite sequence has at least one sorted permutation. */
  lemma {:induction false} SortExists(original: seq<Rect>, order: SortOrder) returns (s: seq<Rect>)
    ensures SortedPermutation(s, original, order)
  {
    s := [];
    if original != [] {
      var n := |original| - 1;
      var t := SortExists(original[..n], order);
      s := InsertSorted(t, original[n], order);
      assert original == original[..n] + [original[n]];
    }
  }

  lemma {:induction false} InsertSorted(t: seq<Rect>, e: Rect, order: SortOrder) returns (s: seq<Rect>)
    requires Sorted(t, order)
    ensures SortedPermutation(s, t + [e], order)
  {
    var n := |t| - 1;
    if t == [] || Compare(order, t[n], e) <= 0 {
      AppendSorted(t, e, order);
      s := t + [e];
    } else {
      var rest := InsertSorted(t[..n], e, order);
      forall i | 0 <= i < |rest| ensures Compare(order, rest[i], t[n]) <= 0 {
        var j := MemberOfPermutation(rest, t[..n] + [e], i);
        CompareIsPreorder(order, e, t[n], t[n]);
      }
      AppendSorted(rest, t[n], order);
      s := rest + [t[n]];
      assert t + [e] == t[..n] + [t[n]] + [e];
      assert multiset(s) == multiset(rest) + multiset([t[n]]);
    }
  }

  lemma AppendSorted(t: seq<Rect>, e: Rect, order: SortOrder)
    requires Sorted(t, order)
    requires t == [] || Compare(order, t[|t| - 1], e) <= 0 || forall i :: 0 <= i < |t| ==> Compare(order, t[i], e) <= 0
    ensures Sorted(t + [e], order)
  {
    forall i | 0 <= i < |t| ensures Compare(order, t[i], e) <= 0 {
      CompareIsPreorder(order, t[i], t[|t| - 1], e);
    }
  }

  lemma MemberOfPermutation<T>(s: seq<T>, t: seq<T>, i: nat) returns (j: nat)
    requires multiset(s) == multiset(t) && i < |s|
    ensures j < |t| && t[j] == s[i]
  {
    assert s[i] in multiset(t);
    j :| 0 <= j < |t| && t[j] == s[i];
  }

  lemma PermutationLength(s: seq<Rect>, t: seq<Rect>)
    requires multiset(s) == multiset(t)
    ensures |s| == |t|
  {
    assert |multiset(s)| == |s| && |multiset(t)| == |t|;
  }

  /** Leaves some permutation that the comparator accepts as sorted; ties may end up in any order. */
  method Sort(a: array<Rect>, order: SortOrder)
    modifies a
    ensures SortedPermutation(a[..], old(a[..]), order)
  {
    ghost var example := SortExists(a[..], order);
    var s: seq<Rect> :| SortedPermutation(s, a[..], order);
    assert SortedPermutation(s, a[..], order);
    PermutationLength(s, a[..]);
    for i := 0 to a.Length
      invariant a[..i] == s[..i]
    {
      a[i] := s[i];
      assert a[..i + 1] == a[..i] + [s[i]];
    }
    assert a[..] == s;
  }

  // ---------- Sorting back restores the caller's order ----------

  predicate SameInput(p: Rect, q: Rect) {
    p.id == q.id && p.w == q.w && p.h == q.h
  }

  ghost predicate SameRequests(s: seq<Rect>, t: seq<Rect>) {
    |s| == |t| && forall i :: 0 <= i < |s| ==> SameInput(s[i], t[i]) && s[i].wasPacked == t[i].wasPacked
  }

  /** Every rectangle carries its own index as tag. */
  ghost predicate Tagged(s: seq<Rect>, original: seq<Rect>) {
    |s| == |original| && forall i :: 0 <= i < |s| ==> SameInput(s[i], original[i]) && s[i].wasPacked == i
  }

  ghost predicate DistinctTags(s: seq<Rect>) {
    forall i, j :: 0 <= i < j < |s| ==> s[i].wasPacked != s[j].wasPacked
  }

  lemma CountTwice<T>(s: seq<T>, i: nat, j: nat)
    requires i < j < |s| && s[i] == s[j]
    ensures 2 <= multiset(s)[s[i]]
  {
    assert s == s[..j] + s[j..];
    assert s[i] in s[..j] && s[j] in s[j..];
  }

  lemma CountOnce<T>(s: seq<T>, i: nat)
    requires i < |s| && forall j :: 0 <= j < |s| && j != i ==> s[j] != s[i]
    ensures multiset(s)[s[i]] == 1
  {
    assert s == s[..i] + [s[i]] + s[i + 1..];
    assert s[i] !in s[..i] && s[i] !in s[i + 1..];
  }

  lemma PermutationKeepsTagsDistinct(s: seq<Rect>, t: seq<Rect>)
    requires multiset(s) == multiset(t) && DistinctTags(t)
    ensures DistinctTags(s)
  {
    forall i, j | 0 <= i < j < |s| ensures s[i].wasPacked != s[j].wasPacked {
      if s[i].wasPacked == s[j].wasPacked {
        var a := MemberOfPermutation(s, t, i);
        var b := MemberOfPermutation(s, t, j);
        assert a == b;
        CountTwice(s, i, j);
        CountOnce(t, a);
      }
    }
  }

  lemma {:induction false} IncreasingTags(s: seq<Rect>, n: nat, i: nat)
    requires i < |s| <= n
    requires forall k :: 0 <= k < |s| ==> 0 <= s[k].wasPacked < n
    requires forall k :: 0 <= k < |s| - 1 ==> s[k].wasPacked < s[k + 1].wasPacked
    ensures i <= s[i].wasPacked <= n - |s| + i
    decreases i
  {
    TagsFromBelow(s, i);
    TagsFromAbove(s, n, i);
  }

  lemma {:induction false} TagsFromBelow(s: seq<Rect>, i: nat)
    requires i < |s| && 0 <= s[0].wasPacked
    requires forall k :: 0 <= k < |s| - 1 ==> s[k].wasPacked < s[k + 1].wasPacked
    ensures i <= s[i].wasPacked
  {
    if i > 0 {
      TagsFromBelow(s, i - 1);
      assert s[i - 1].wasPacked < s[i - 1 + 1].wasPacked;
    }
  }

  lemma {:induction false} TagsFromAbove(s: seq<Rect>, n: nat, i: nat)
    requires i < |s| && s[|s| - 1].wasPacked < n
    requires forall k :: 0 <= k < |s| - 1 ==> s[k].wasPacked < s[k + 1].wasPacked
    ensures s[i].wasPacked <= n - |s| + i
    decreases |s| - i
  {
    if i + 1 < |s| {
      TagsFromAbove(s, n, i + 1);
    }
  }

  /** Tag, sort by height, change only x and y, sort by tag: the caller's sequence is back. */
  lemma SortingBackRestores(original: seq<Rect>, tagged: seq<Rect>, sorted: seq<Rect>, packed: seq<Rect>, back: seq<Rect>)
    requires Tagged(tagged, original)
    requires SortedPermutation(sorted, tagged, ByHeight)
    requires SameRequests(packed, sorted)
    requires SortedPermutation(back, packed, ByOriginalPosition)
    ensures Tagged(back, original)
  {
    var n := |original|;
    PermutationLength(sorted, tagged);
    PermutationLength(back, packed);
    PermutationKeepsTagsDistinct(sorted, tagged);
    PermutationKeepsTagsDistinct(back, packed);
    forall i | 0 <= i < n
      ensures 0 <= back[i].wasPacked < n && SameInput(back[i], original[back[i].wasPacked])
    {
      var j := MemberOfPermutation(back, packed, i);
      var k := MemberOfPermutation(sorted, tagged, j);
    }
    forall i | 0 <= i < n ensures back[i].wasPacked == i {
      forall k | 0 <= k < n - 1 ensures back[k].wasPacked < back[k + 1].wasPacked {
        assert Compare(ByOriginalPosition, back[k], back[k + 1]) <= 0;
      }
      IncreasingTags(back, n, i);
    }
  }

  // ---------- The boxes of an array of rectangles ----------

  predicate IsEmpty(r: Rect) {
    r.w == 0 || r.h == 0
  }

  /** The coordinates that stand for "not packed". */
  predicate Marked(r: Rect) {
    r.x == MAXVAL && r.y == MAXVAL
  }

  function BoxOf(r: Rect): Box {
    Box(r.x, r.y, r.w, r.h)
  }

  /** The boxes of all rectangles that take up space and were placed. */
  function BoxesOf(s: seq<Rect>): seq<Box> {
    if s == [] then []
    else
      var r := s[|s| - 1];
      BoxesOf(s[..|s| - 1]) + (if IsEmpty(r) || Marked(r) then [] else [BoxOf(r)])
  }

  lemma {:induction false} BoxesOfConcat(s: seq<Rect>, t: seq<Rect>)
    ensures BoxesOf(s + t) == BoxesOf(s) + BoxesOf(t)
  {
    if t == [] {
      assert s + t == s;
    } else {
      var n := |t| - 1;
      BoxesOfConcat(s, t[..n]);
      assert (s + t)[..|s + t| - 1] == s + t[..n];
    }
  }

  /** A permutation has the same boxes, each as often. */
  lemma {:induction false} BoxesOfPermutation(s: seq<Rect>, t: seq<Rect>)
    requires multiset(s) == multiset(t)
    ensures multiset(BoxesOf(s)) == multiset(BoxesOf(t))
  {
    PermutationLength(s, t);
    if s != [] {
      var n := |s| - 1;
      var k := MemberOfPermutation(s, t, n);
      var rest := t[..k] + t[k + 1..];
      assert s == s[..n] + [s[n]];
      assert t == t[..k] + [t[k]] + t[k + 1..];
      assert multiset(s) == multiset(s[..n]) + multiset{s[n]};
      assert multiset(t) == multiset(rest) + multiset{t[k]};
      assert multiset(s[..n]) == multiset(s) - multiset{s[n]} == multiset(rest);
      BoxesOfPermutation(s[..n], rest);
      BoxesOfConcat(t[..k], t[k + 1..]);
      BoxesOfConcat(t[..k] + [t[k]], t[k + 1..]);
      BoxesOfConcat(t[..k], [t[k]]);
      BoxesOfConcat(s[..n], [s[n]]);
    }
  }

  // ---------- Placing the rectangles ----------

  /** What holds of a rectangle from the moment it was tried: an empty one sits at the origin, and one that could
      not be placed although no node was missing fits nowhere under the skyline, now or later. */
  ghost predicate Settled(r: Rect, s: seq<Point>, width: int, height: int, align: int, enoughNodes: bool)
    requires 1 <= align
  {
    && (IsEmpty(r) ==> r.x == 0 && r.y == 0)
    && (!IsEmpty(r) && Marked(r) && enoughNodes ==> FitsNowhere(r, s, width, height, align))
  }

  ghost predicate FitsNowhere(r: Rect, s: seq<Point>, width: int, height: int, align: int)
    requires 1 <= align
  {
    NothingFits(s, width, AlignedWidth(r.w, align), height - r.h)
  }

  lemma SettledLater(r: Rect, s: seq<Point>, t: seq<Point>, width: int, height: int, align: int, enough: bool)
    requires 1 <= align && Settled(r, s, width, height, align, enough) && Rises(s, t, width)
    ensures Settled(r, t, width, height, align, enough)
  {
    if !IsEmpty(r) && Marked(r) && enough {
      NothingFitsLater(s, t, width, AlignedWidth(r.w, align), height - r.h);
    }
  }

  /** Best fit needs a tail at or right of the rounded width, so callers must not ask for more than the target's. */
  ghost predicate WidthAllowed(r: Rect, mode: Heuristic, width: int, align: int)
    requires 1 <= align
  {
    mode == BestFit && !IsEmpty(r) ==> AlignedWidth(r.w, align) <= width
  }

  ghost predicate WidthsAllowed(rs: seq<Rect>, mode: Heuristic, width: int, align: int)
    requires 1 <= align
  {
    forall i :: 0 <= i < |rs| ==> WidthAllowed(rs[i], mode, width, align)
  }

  /** The coordinates stored for the outcome of one placement. */
  function Filled(r: Rect, fr: FindResult): Rect {
    if fr.link == Missing then r.(x := MAXVAL, y := MAXVAL) else r.(x := ToCoord(fr.x), y := ToCoord(fr.y))
  }

  /** No real placement looks like the marker, and storing the coordinates loses nothing. */
  lemma FilledIsSettled(r: Rect, fr: FindResult, s: seq<Point>, t: seq<Point>, width: int, height: int, mode: Heuristic,
                        align: int, span: nat, room: int, hadFree: bool, i: nat, before: seq<Box>, after: seq<Box>)
    requires 1 <= align && !IsEmpty(r) && 0 < span == AlignedWidth(r.w, align) && room == height - r.h
    requires Packed(s, t, width, mode, r.w, r.h, span, room, hadFree, fr, i, before, after)
    requires IsPacking(t, after, width, height) && width <= MAXVAL && height <= MAXVAL
    ensures Rises(s, t, width)
    ensures after == before + BoxesOf([Filled(r, fr)])
    ensures Settled(Filled(r, fr), t, width, height, align, hadFree)
  {
    PackedRises(s, t, width, mode, r.w, r.h, span, room, hadFree, fr, i, before, after);
    var r' := Filled(r, fr);
    assert [r'][..0] == [];
    if fr.link != Missing {
      var b := after[|after| - 1];
      assert b == Box(fr.x, fr.y, r.w, r.h) && Inside(b, width, height);
      assert r'.x == fr.x < MAXVAL && r'.y == fr.y;
      assert BoxesOf([r']) == [b];
    } else {
      assert BoxesOf([r']) == [];
    }
  }

  // ---------- One rectangle's turn ----------

  /** The settings of a packer, which placing does not change. */
  datatype Target = Target(mode: Heuristic, width: int, height: int, align: int, numNodes: int)

  ghost function TargetOf(c: Context): Target
    reads c
  {
    Target(c.heuristic, c.width, c.height, c.align, c.numNodes)
  }

  /** What one rectangle's turn on the skyline s comes to, which then is t. An empty one goes to the origin. Any other one
      is marked exactly if all nodes are in use or it fits nowhere, and changes nothing then; or it is put where the
      heuristic says. */
  ghost predicate Tried(g: Target, r: Rect, s: seq<Point>, t: seq<Point>)
    requires 1 <= g.align
  {
    && (IsEmpty(r) ==> r.x == 0 && r.y == 0 && t == s)
    && (!IsEmpty(r) ==>
          (Marked(r) <==> |s| == g.numNodes + 2 || FitsNowhere(r, s, g.width, g.height, g.align)))
    && (!IsEmpty(r) && Marked(r) ==> t == s)
    && (Placed(r) ==> exists i: nat :: PutAt(g, r, s, t, i))
  }

  /** The rectangle lies in the chosen spot of s, inside segment i, and t is s raised to its top: over its columns and
      nowhere else for bottom-left and for widths that need no rounding. */
  ghost predicate PutAt(g: Target, r: Rect, s: seq<Point>, t: seq<Point>, i: nat)
    requires 1 <= g.align
  {
    var span := AlignedWidth(r.w, g.align);
    && ChosenSpot(s, g.width, span, g.mode, g.height - r.h, i, r.x, r.y) && Raised(s, t, g.width, i, BoxOf(r))
    && (g.mode == BottomLeft || span == r.w ==> PointUpdate(s, t, g.width, r.x, r.w, r.y + r.h))
  }

  lemma FilledIsTried(g: Target, r: Rect, fr: FindResult, s: seq<Point>, t: seq<Point>, span: nat, room: int,
                      hadFree: bool, i: nat, before: seq<Box>, after: seq<Box>)
    requires 1 <= g.align && !IsEmpty(r) && 0 < span == AlignedWidth(r.w, g.align) && room == g.height - r.h
    requires Packed(s, t, g.width, g.mode, r.w, r.h, span, room, hadFree, fr, i, before, after)
    requires IsPacking(t, after, g.width, g.height) && g.width <= MAXVAL && g.height <= MAXVAL
    requires hadFree <==> |s| != g.numNodes + 2
    ensures Tried(g, Filled(r, fr), s, t)
  {
    hide ChosenSpot, Raised, NothingFits, PointUpdate;
    if fr.link != Missing {
      var b := after[|after| - 1];
      assert b == Box(fr.x, fr.y, r.w, r.h) && Inside(b, g.width, g.height);
      assert PutAt(g, Filled(r, fr), s, t, i);
    }
  }

  /** A free node is left exactly if the skyline does not use them all. */
  lemma FreeIff(c: Context)
    requires c.Valid()
    ensures c.free != [] <==> |c.Skyline()| != c.numNodes + 2
  {
  }

  method PlaceOne(c: Context, r: Rect) returns (r': Rect)
    requires c.Valid() && WidthAllowed(r, c.heuristic, c.width, c.align)
    modifies c`activeHead, c`freeHead, c`active, c`free, c`placed, c.pool
    ensures c.Valid() && r' == r.(x := r'.x, y := r'.y)
    ensures Rises(old(c.Skyline()), c.Skyline(), c.width)
    ensures c.placed == old(c.placed) + BoxesOf([r'])
    ensures Settled(r', c.Skyline(), c.width, c.height, c.align, c.width <= c.numNodes)
    ensures Tried(TargetOf(c), r', old(c.Skyline()), c.Skyline())
  {
    hide Packed, ChosenSpot, Raised, IsPacking, IsSkyline, Partition, Linked;
    ghost var s, before := c.Skyline(), c.placed;
    FreeIff(c);
    if r.w == 0 || r.h == 0 {
      r' := r.(x := 0, y := 0);
      assert BoxesOf([r']) == [];
    } else {
      ghost var room, hadFree := c.height - r.h, c.free != [];
      if c.width <= c.numNodes {
        c.FreeNodeLeft();
      }
      var fr;
      ghost var i, span;
      fr, i, span := c.PackRectangle(r.w, r.h, s, room);
      FilledIsSettled(r, fr, s, c.Skyline(), c.width, c.height, c.heuristic, c.align, span, room, hadFree, i,
                      before, c.placed);
      FilledIsTried(TargetOf(c), r, fr, s, c.Skyline(), span, room, hadFree, i, before, c.placed);
      if fr.link != Missing {
        r' := r.(x := ToCoord(fr.x), y := ToCoord(fr.y));
      } else {
        r' := r.(x := MAXVAL, y := MAXVAL);
      }
    }
  }

  ghost predicate SettledAll(rs: seq<Rect>, s: seq<Point>, width: int, height: int, align: int, enough: bool)
    requires 1 <= align
  {
    forall k :: 0 <= k < |rs| ==> Settled(rs[k], s, width, height, align, enough)
  }

  lemma SettledStep(rs: seq<Rect>, r: Rect, s: seq<Point>, t: seq<Point>, width: int, height: int, align: int, enough: bool)
    requires 1 <= align && SettledAll(rs, s, width, height, align, enough)
    requires Rises(s, t, width) && Settled(r, t, width, height, align, enough)
    ensures SettledAll(rs + [r], t, width, height, align, enough)
  {
    forall k | 0 <= k < |rs| ensures Settled(rs[k], t, width, height, align, enough) {
      SettledLater(rs[k], s, t, width, height, align, enough);
    }
  }

  /** PlaceOne on an array element; s and t are the skylines before and after. */
  method PlaceAt(c: Context, rects: array<Rect>, i: int, ghost s: seq<Point>) returns (ghost r: Rect, ghost t: seq<Point>)
    requires c.Valid() && c.Skyline() == s && 0 <= i < rects.Length
    requires WidthAllowed(rects[i], c.heuristic, c.width, c.align)
    modifies c`activeHead, c`freeHead, c`active, c`free, c`placed, c.pool, rects
    ensures c.Valid() && c.Skyline() == t && Rises(s, t, c.width)
    ensures rects[..] == old(rects[..])[i := r] && r == old(rects[i]).(x := r.x, y := r.y)
    ensures c.placed == old(c.placed) + BoxesOf([r])
    ensures Settled(r, t, c.width, c.height, c.align, c.width <= c.numNodes) && Tried(TargetOf(c), r, s, t)
  {
    hide Tried, Settled, IsPacking, IsSkyline, Partition, Linked;
    var filled := PlaceOne(c, rects[i]);
    r, t := filled, c.Skyline();
    label Placed:
    rects[i] := filled;
    c.Untouched@Placed();
  }

  /** The skylines from turn to turn. */
  ghost predicate Course(g: Target, done: seq<Rect>, sky: seq<seq<Point>>)
    requires 1 <= g.align
  {
    |sky| == |done| + 1 && forall k :: 0 <= k < |done| ==> Tried(g, done[k], sky[k], sky[k + 1])
  }

  lemma CourseStep(g: Target, done: seq<Rect>, sky: seq<seq<Point>>, r: Rect, t: seq<Point>)
    requires 1 <= g.align && Course(g, done, sky) && Tried(g, r, sky[|done|], t)
    ensures Course(g, done + [r], sky + [t])
  {
    hide Tried;
  }

  /** Places the rectangles in array order. */
  method PlaceAll(c: Context, rects: array<Rect>) returns (ghost sky: seq<seq<Point>>)
    requires c.Valid() && WidthsAllowed(rects[..], c.heuristic, c.width, c.align)
    modifies c`activeHead, c`freeHead, c`active, c`free, c`placed, c.pool, rects
    ensures c.Valid() && SameRequests(rects[..], old(rects[..]))
    ensures c.placed == old(c.placed) + BoxesOf(rects[..])
    ensures SettledAll(rects[..], c.Skyline(), c.width, c.height, c.align, c.width <= c.numNodes)
    ensures Course(TargetOf(c), rects[..], sky) && sky[0] == old(c.Skyline()) && sky[rects.Length] == c.Skyline()
  {
    ghost var before, input, done: seq<Rect>, s := c.placed, rects[..], [], c.Skyline();
    sky := [s];
    NonePlaced(input, before);
    for i := 0 to rects.Length
      invariant Placing(c, rects, i, input, before, done, s)
      invariant Course(TargetOf(c), done, sky) && sky[0] == old(c.Skyline()) && sky[i] == s
    {
      done, s, sky := PlaceNext(c, rects, i, input, before, done, s, sky);
    }
    AllPlaced(rects[..], input, done);
  }

  lemma NonePlaced(input: seq<Rect>, before: seq<Box>)
    ensures Progress(input, input, 0, []) && before + BoxesOf([]) == before
  {
  }

  lemma AllPlaced(now: seq<Rect>, input: seq<Rect>, done: seq<Rect>)
    requires Progress(now, input, |now|, done)
    ensures now == done && SameRequests(now, input)
  {
    assert input[..|now|] == input;
  }

  ghost predicate Placing(c: Context, rects: array<Rect>, i: int, input: seq<Rect>, before: seq<Box>,
                          done: seq<Rect>, s: seq<Point>)
    reads c, c.pool, rects
  {
    && c.Valid() && c.Skyline() == s
    && Progress(rects[..], input, i, done) && WidthsAllowed(input, c.heuristic, c.width, c.align)
    && c.placed == before + BoxesOf(done)
    && SettledAll(done, s, c.width, c.height, c.align, c.width <= c.numNodes)
  }

  method PlaceNext(c: Context, rects: array<Rect>, i: int, ghost input: seq<Rect>, ghost before: seq<Box>,
                   ghost done: seq<Rect>, ghost s: seq<Point>, ghost sky: seq<seq<Point>>)
    returns (ghost done': seq<Rect>, ghost t: seq<Point>, ghost sky': seq<seq<Point>>)
    requires Placing(c, rects, i, input, before, done, s) && 0 <= i < rects.Length
    requires Course(TargetOf(c), done, sky) && sky[i] == s
    modifies c`activeHead, c`freeHead, c`active, c`free, c`placed, c.pool, rects
    ensures Placing(c, rects, i + 1, input, before, done', t)
    ensures Course(TargetOf(c), done', sky') && sky'[0] == sky[0] && sky'[i + 1] == t
  {
    hide Tried, Settled;
    assert rects[i] == rects[..][i] == input[i];
    assert WidthAllowed(input[i], c.heuristic, c.width, c.align);
    ghost var r, was := rects[i], rects[..];
    r, t := PlaceAt(c, rects, i, s);
    SettledStep(done, r, s, t, c.width, c.height, c.align, c.width <= c.numNodes);
    BoxesOfConcat(done, [r]);
    ProgressStep(was, rects[..], input, i, done, r);
    CourseStep(TargetOf(c), done, sky, r, t);
    done', sky' := done + [r], sky + [t];
  }

  /** The first i rectangles are replaced by `done`, the others are untouched. */
  ghost predicate Progress(now: seq<Rect>, input: seq<Rect>, i: int, done: seq<Rect>) {
    && 0 <= i == |done| <= |input| == |now|
    && now == done + input[i..]
    && SameRequests(done, input[..i])
  }

  lemma ProgressStep(was: seq<Rect>, now: seq<Rect>, input: seq<Rect>, i: int, done: seq<Rect>, r: Rect)
    requires Progress(was, input, i, done) && i < |input| && now == was[i := r]
    requires SameInput(r, input[i]) && r.wasPacked == input[i].wasPacked
    ensures Progress(now, input, i + 1, done + [r])
  {
    assert forall k :: 0 <= k < i ==> input[..i + 1][k] == input[..i][k];
  }

  // ---------- The whole call ----------

  /** Space-taking rectangles that were placed never overlap each other. */
  ghost predicate PairwiseApart(rs: seq<Rect>) {
    forall i, j :: 0 <= i < j < |rs| && Placed(rs[i]) && Placed(rs[j]) ==> Disjoint(BoxOf(rs[i]), BoxOf(rs[j]))
  }

  predicate Placed(r: Rect) {
    !IsEmpty(r) && !Marked(r)
  }

  ghost predicate BoxesApart(bs: seq<Box>) {
    forall i, j :: 0 <= i < j < |bs| ==> Disjoint(bs[i], bs[j])
  }

  lemma PermutationStaysApart(p: seq<Box>, q: seq<Box>)
    requires multiset(p) == multiset(q) && BoxesApart(p)
    requires forall i :: 0 <= i < |p| ==> 0 < p[i].w && 0 < p[i].h
    ensures BoxesApart(q)
  {
    forall i, j | 0 <= i < j < |q| ensures Disjoint(q[i], q[j]) {
      var a := MemberOfPermutation(q, p, i);
      var b := MemberOfPermutation(q, p, j);
      if a == b {
        CountTwice(q, i, j);
        CountOnce(p, a);
      }
    }
  }

  lemma BoxesApartMeansRectsApart(rs: seq<Rect>)
    requires BoxesApart(BoxesOf(rs))
    ensures PairwiseApart(rs)
  {
    forall i, j | 0 <= i < j < |rs| && Placed(rs[i]) && Placed(rs[j])
      ensures Disjoint(BoxOf(rs[i]), BoxOf(rs[j]))
    {
      BoxesInOrder(rs, i, j);
    }
  }

  lemma BoxesInOrder(rs: seq<Rect>, i: nat, j: nat)
    requires i < j < |rs| && Placed(rs[i]) && Placed(rs[j]) && BoxesApart(BoxesOf(rs))
    ensures Disjoint(BoxOf(rs[i]), BoxOf(rs[j]))
  {
    hide BoxesOf, Disjoint;
    var front, back, boxes := BoxesOf(rs[..j]), BoxesOf(rs[j..]), BoxesOf(rs);
    BoxesOfConcat(rs[..j], rs[j..]);
    assert rs == rs[..j] + rs[j..];
    var a := BoxIndex(rs[..j], i);
    var b := BoxIndex(rs[j..], 0);
    var b' := |front| + b;
    assert boxes[a] == front[a] && boxes[b'] == back[b];
  }

  lemma BoxIndex(rs: seq<Rect>, i: nat) returns (k: nat)
    requires i < |rs| && Placed(rs[i])
    ensures k < |BoxesOf(rs)| && BoxesOf(rs)[k] == BoxOf(rs[i])
  {
    k := |BoxesOf(rs[..i])|;
    assert rs == rs[..i] + [rs[i]] + rs[i + 1..];
    BoxesOfConcat(rs[..i] + [rs[i]], rs[i + 1..]);
    BoxesOfConcat(rs[..i], [rs[i]]);
    assert [rs[i]][..0] == [];
  }

  lemma {:induction false} BoxesIgnoreFlags(s: seq<Rect>, t: seq<Rect>)
    requires |s| == |t| && forall i :: 0 <= i < |s| ==> t[i] == s[i].(wasPacked := t[i].wasPacked)
    ensures BoxesOf(s) == BoxesOf(t)
  {
    if s != [] {
      BoxesIgnoreFlags(s[..|s| - 1], t[..|t| - 1]);
    }
  }

  /** The final array, compared with the one handed in: same requests in the same order, exact flags, and the new
      boxes of the packing are exactly the boxes of the placed rectangles. */
  ghost predicate Delivered(rs: seq<Rect>, original: seq<Rect>, before: seq<Box>, after: seq<Box>) {
    && |rs| == |original|
    && (forall i :: 0 <= i < |rs| ==> SameInput(rs[i], original[i]))
    && (forall i :: 0 <= i < |rs| ==> rs[i].wasPacked == (if IsEmpty(rs[i]) || Placed(rs[i]) then 1 else 0))
    && before <= after && multiset(after[|before|..]) == multiset(BoxesOf(rs))
  }

  lemma DeliveredIsApart(rs: seq<Rect>, original: seq<Rect>, before: seq<Box>, after: seq<Box>,
                         s: seq<Point>, width: int, height: int)
    requires Delivered(rs, original, before, after) && IsPacking(s, after, width, height)
    ensures PairwiseApart(rs)
    ensures forall i :: 0 <= i < |rs| && Placed(rs[i]) ==> Inside(BoxOf(rs[i]), width, height)
    ensures forall i, k :: 0 <= i < |rs| && Placed(rs[i]) && 0 <= k < |before| ==> Disjoint(before[k], BoxOf(rs[i]))
  {
    var added := after[|before|..];
    assert forall i :: 0 <= i < |added| ==> added[i] == after[|before| + i];
    PermutationStaysApart(added, BoxesOf(rs));
    BoxesApartMeansRectsApart(rs);
    forall i | 0 <= i < |rs| && Placed(rs[i])
      ensures Inside(BoxOf(rs[i]), width, height)
      ensures forall k :: 0 <= k < |before| ==> Disjoint(before[k], BoxOf(rs[i]))
    {
      var k := BoxIndex(rs, i);
      var j := MemberOfPermutation(BoxesOf(rs), added, k);
      assert after[|before| + j] == BoxOf(rs[i]);
    }
  }

  method TagAll(rects: array<Rect>)
    modifies rects
    ensures Tagged(rects[..], old(rects[..]))
  {
    for i := 0 to rects.Length
      invariant forall k :: 0 <= k < i ==> rects[k] == old(rects[k]).(wasPacked := k)
      invariant forall k :: i <= k < rects.Length ==> rects[k] == old(rects[k])
    {
      rects[i] := rects[i].(wasPacked := i);
    }
  }

  method SetFlags(rects: array<Rect>) returns (all: bool)
    modifies rects
    ensures forall k :: 0 <= k < rects.Length ==>
              rects[k] == old(rects[k]).(wasPacked := if Marked(old(rects[k])) then 0 else 1)
    ensures all <==> forall k :: 0 <= k < rects.Length ==> rects[k].wasPacked == 1
  {
    all := true;
    for i := 0 to rects.Length
      invariant forall k :: 0 <= k < i ==>
        rects[k] == old(rects[k]).(wasPacked := if Marked(old(rects[k])) then 0 else 1)
      invariant forall k :: i <= k < rects.Length ==> rects[k] == old(rects[k])
      invariant all <==> forall k :: 0 <= k < i ==> rects[k].wasPacked == 1
    {
      var packed := !(rects[i].x == MAXVAL && rects[i].y == MAXVAL);
      rects[i] := rects[i].(wasPacked := if packed then 1 else 0);
      if rects[i].wasPacked == 0 {
        all := false;
      }
    }
  }

  // ---------- The order of the turns ----------

  /** Taller first, and of equal heights wider first; equal sizes come in any order. */
  predicate ComesFirst(p: Rect, q: Rect) {
    p.h > q.h || (p.h == q.h && p.w >= q.w)
  }

  ghost function InOrder(rs: seq<Rect>, turns: seq<nat>): (order: seq<Rect>)
    requires forall k :: 0 <= k < |turns| ==> turns[k] < |rs|
    ensures |order| == |turns| && forall k :: 0 <= k < |turns| ==> order[k] == rs[turns[k]]
  {
    seq(|turns|, k requires 0 <= k < |turns| => rs[turns[k]])
  }

  /** turns[k] is the index of the rectangle whose turn comes as number k: each has one, tallest first. */
  ghost predicate InTurn(rs: seq<Rect>, turns: seq<nat>) {
    && |turns| == |rs| && (forall k :: 0 <= k < |turns| ==> turns[k] < |rs|)
    && (forall i: nat :: i < |rs| ==> i in turns)
    && (forall j, k :: 0 <= j < k < |turns| ==> turns[j] != turns[k] && ComesFirst(rs[turns[j]], rs[turns[k]]))
    && multiset(InOrder(rs, turns)) == multiset(rs)
  }

  /** The rectangles rs have been tried in their turns, from the first skyline to the last. */
  ghost predicate PackedInTurn(g: Target, rs: seq<Rect>, turns: seq<nat>, sky: seq<seq<Point>>)
    requires 1 <= g.align
  {
    InTurn(rs, turns) && Course(g, InOrder(rs, turns), sky)
  }

  function Flagged(r: Rect): Rect {
    r.(wasPacked := if Marked(r) then 0 else 1)
  }

  function Mapped<A, B>(f: A -> B, s: seq<A>): (t: seq<B>)
    ensures |t| == |s| && forall k :: 0 <= k < |s| ==> t[k] == f(s[k])
  {
    seq(|s|, k requires 0 <= k < |s| => f(s[k]))
  }

  lemma {:induction false} MappedPermutation<A, B>(f: A -> B, s: seq<A>, t: seq<A>)
    requires multiset(s) == multiset(t)
    ensures multiset(Mapped(f, s)) == multiset(Mapped(f, t))
  {
    hide Mapped;
    assert |multiset(s)| == |s| && |multiset(t)| == |t|;
    if s == [] {
      assert Mapped(f, s) == Mapped(f, t);
    } else {
      var n := |s| - 1;
      var k := MemberOfPermutation(s, t, n);
      WithoutOne(s, t, n, k);
      MappedPermutation(f, s[..n] + s[n + 1..], t[..k] + t[k + 1..]);
      MappedSplits(f, s, n);
      MappedSplits(f, t, k);
    }
  }

  lemma WithoutOne<A>(s: seq<A>, t: seq<A>, i: nat, k: nat)
    requires multiset(s) == multiset(t) && i < |s| && k < |t| && s[i] == t[k]
    ensures multiset(s[..i] + s[i + 1..]) == multiset(t[..k] + t[k + 1..])
  {
    TakenOut(s, i);
    TakenOut(t, k);
  }

  lemma TakenOut<A>(s: seq<A>, i: nat)
    requires i < |s|
    ensures multiset(s[..i] + s[i + 1..]) == multiset(s) - multiset{s[i]}
  {
    assert s == s[..i] + [s[i]] + s[i + 1..];
  }

  lemma MappedSplits<A, B>(f: A -> B, t: seq<A>, k: nat)
    requires k < |t|
    ensures multiset(Mapped(f, t)) == multiset(Mapped(f, t[..k] + t[k + 1..])) + multiset{f(t[k])}
  {
    var g, h := Mapped(f, t), Mapped(f, t[..k] + t[k + 1..]);
    assert g == g[..k] + [g[k]] + g[k + 1..];
    assert h == g[..k] + g[k + 1..];
  }

  function TagsOf(packed: seq<Rect>): (turns: seq<nat>)
    requires forall k :: 0 <= k < |packed| ==> 0 <= packed[k].wasPacked
    ensures |turns| == |packed| && forall k :: 0 <= k < |packed| ==> turns[k] == packed[k].wasPacked
  {
    seq(|packed|, k requires 0 <= k < |packed| => packed[k].wasPacked as nat)
  }

  /** The tags of the sorted rectangles tell whose turn it was. */
  lemma TagsTellTurns(g: Target, original: seq<Rect>, sorted: seq<Rect>, packed: seq<Rect>, back: seq<Rect>, final: seq<Rect>,
                      sky: seq<seq<Point>>) returns (turns: seq<nat>)
    requires 1 <= g.align && Tagged(back, original) && multiset(back) == multiset(packed)
    requires Sorted(sorted, ByHeight) && SameRequests(packed, sorted) && Course(g, packed, sky)
    requires |final| == |back| && forall k :: 0 <= k < |back| ==> final[k] == Flagged(back[k])
    ensures PackedInTurn(g, final, turns, sky)
    ensures InOrder(final, turns) == Mapped(Flagged, packed)
  {
    hide Tried;
    PermutationLength(back, packed);
    PermutationKeepsTagsDistinct(packed, back);
    forall k | 0 <= k < |packed| ensures 0 <= packed[k].wasPacked < |back| && packed[k] == back[packed[k].wasPacked] {
      var j := MemberOfPermutation(packed, back, k);
    }
    turns := TagsOf(packed);
    assert InOrder(final, turns) == Mapped(Flagged, packed);
    assert final == Mapped(Flagged, back);
    MappedPermutation(Flagged, packed, back);
    forall i: nat | i < |final| ensures i in turns {
      var k := MemberOfPermutation(back, packed, i);
      assert turns[k] == i;
    }
    forall j, k | 0 <= j < k < |turns| ensures ComesFirst(final[turns[j]], final[turns[k]]) {
      HeightCompareIsLexicographic(sorted[j], sorted[k]);
    }
    FlagsDoNotMatter(g, packed, sky);
  }

  lemma FlagsDoNotMatter(g: Target, packed: seq<Rect>, sky: seq<seq<Point>>)
    requires 1 <= g.align && Course(g, packed, sky)
    ensures Course(g, Mapped(Flagged, packed), sky)
  {
    hide ChosenSpot, Raised, PointUpdate, NothingFits;
    forall k | 0 <= k < |packed| ensures Tried(g, Mapped(Flagged, packed)[k], sky[k], sky[k + 1]) {
      if Placed(packed[k]) {
        var i: nat :| PutAt(g, packed[k], sky[k], sky[k + 1], i);
        assert PutAt(g, Flagged(packed[k]), sky[k], sky[k + 1], i);
      }
    }
  }

  /** Packs the rectangles into the context and reports in every rectangle where it went. They are tried tallest first,
      whatever their order in the array: `turns` and `sky` tell the course of that. */
  method Pack(c: Context, rects: array<Rect>) returns (all: bool, ghost turns: seq<nat>, ghost sky: seq<seq<Point>>)
    requires c.Valid() && WidthsAllowed(rects[..], c.heuristic, c.width, c.align)
    modifies c`activeHead, c`freeHead, c`active, c`free, c`placed, c.pool, rects
    ensures c.Valid()
    ensures Delivered(rects[..], old(rects[..]), old(c.placed), c.placed)
    ensures all <==> forall k :: 0 <= k < rects.Length ==> rects[k].wasPacked == 1
    ensures SettledAll(rects[..], c.Skyline(), c.width, c.height, c.align, c.width <= c.numNodes)
    ensures PackedInTurn(TargetOf(c), rects[..], turns, sky)
    ensures sky[0] == old(c.Skyline()) && sky[rects.Length] == c.Skyline()
    ensures c.placed == old(c.placed) + BoxesOf(InOrder(rects[..], turns))
  {
    hide SortedPermutation, Tagged, Delivered, SettledAll, Course, InTurn, BoxesOf, WidthsAllowed, SameRequests;
    ghost var original, before := rects[..], c.placed;
    TagAll(rects);
    ghost var tagged := rects[..];
    Sort(rects, ByHeight);
    ghost var sorted := rects[..];
    WidthsOfPermutation(original, tagged, sorted, c.heuristic, c.width, c.align);
    c.Untouched();
    sky := PlaceAll(c, rects);
    ghost var packed, s := rects[..], c.Skyline();
    label Packed:
    Sort(rects, ByOriginalPosition);
    ghost var back := rects[..];
    SortingBackRestores(original, tagged, sorted, packed, back);
    all := SetFlags(rects);
    c.Untouched@Packed();
    turns := TagsTellTurns(TargetOf(c), original, sorted, packed, back, rects[..], sky);
    BoxesIgnoreFlags(packed, Mapped(Flagged, packed));
    Conclude(original, packed, back, rects[..], before, c.placed, s, c.width, c.height, c.align, c.width <= c.numNodes);
  }

  // ---------- What the order of the turns means ----------

  /** A rectangle that takes up space and comes strictly first by height and width is decided on a skyline that the other
      one has not touched yet. */
  lemma DecidedWithout(g: Target, rs: seq<Rect>, turns: seq<nat>, sky: seq<seq<Point>>, i: nat, j: nat)
    returns (a: nat, b: nat)
    requires 1 <= g.align && PackedInTurn(g, rs, turns, sky) && i < |rs| && j < |rs|
    requires rs[i].h > rs[j].h || (rs[i].h == rs[j].h && rs[i].w > rs[j].w)
    ensures a < b < |turns| && turns[a] == i && turns[b] == j
    ensures Tried(g, rs[i], sky[a], sky[a + 1]) && Tried(g, rs[j], sky[b], sky[b + 1])
    ensures forall k :: 0 <= k <= a ==> turns[k] != j
  {
    hide Tried;
    assert i in turns && j in turns;
    a :| 0 <= a < |turns| && turns[a] == i;
    b :| 0 <= b < |turns| && turns[b] == j;
    assert InOrder(rs, turns)[a] == rs[i] && InOrder(rs, turns)[b] == rs[j];
  }

  /** Column c once the boxes have been put down on the skyline one after the other. */
  ghost function HeightOver(s: seq<Point>, boxes: seq<Box>, c: int): int {
    if boxes == [] then HeightAt(s, c)
    else
      var b := boxes[|boxes| - 1];
      if b.x <= c < b.x + b.w then b.y + b.h else HeightOver(s, boxes[..|boxes| - 1], c)
  }

  /** For bottom-left, and whenever no width needs rounding, a turn sees the boxes of the turns before it and nothing
      else. */
  lemma {:induction false} SkyIsBoxes(g: Target, order: seq<Rect>, sky: seq<seq<Point>>, k: nat, c: int)
    requires 1 <= g.align && Course(g, order, sky) && k <= |order| && (g.mode == BottomLeft || g.align == 1)
    requires 0 <= c < g.width
    ensures HeightAt(sky[k], c) == HeightOver(sky[0], BoxesOf(order[..k]), c)
  {
    hide HeightAt, ChosenSpot, Raised, NothingFits;
    if k > 0 {
      var r := order[k - 1];
      SkyIsBoxes(g, order, sky, k - 1, c);
      assert order[..k][..k - 1] == order[..k - 1];
      assert Tried(g, r, sky[k - 1], sky[k - 1 + 1]);
      AlignedWidthRoundsUp(r.w, g.align);
      var front := BoxesOf(order[..k - 1]);
      if Placed(r) {
        assert BoxesOf(order[..k]) == front + [BoxOf(r)];
        assert (front + [BoxOf(r)])[..|front|] == front;
      } else {
        assert BoxesOf(order[..k]) == front + [] == front;
      }
    }
  }

  /** The new boxes are the taller ones first, and of equal heights the wider ones. */
  lemma {:induction false} BoxesComeInTurn(order: seq<Rect>, a: nat, b: nat)
    requires forall j, k :: 0 <= j < k < |order| ==> ComesFirst(order[j], order[k])
    requires a < b < |BoxesOf(order)|
    ensures var bs := BoxesOf(order); bs[a].h > bs[b].h || (bs[a].h == bs[b].h && bs[a].w >= bs[b].w)
  {
    var n := |order| - 1;
    if b < |BoxesOf(order[..n])| {
      BoxesComeInTurn(order[..n], a, b);
    } else {
      var k := BoxOwner(order[..n], a);
      assert ComesFirst(order[k], order[n]);
    }
  }

  lemma {:induction false} BoxOwner(order: seq<Rect>, a: nat) returns (k: nat)
    requires a < |BoxesOf(order)|
    ensures k < |order| && BoxesOf(order)[a] == BoxOf(order[k])
  {
    var n := |order| - 1;
    if a < |BoxesOf(order[..n])| {
      k := BoxOwner(order[..n], a);
    } else {
      k := n;
    }
  }

  // ---------- The packing does not depend on the order of the array ----------

  function SizeOf(r: Rect): (int, int) {
    (r.h, r.w)
  }

  predicate SizesFall(sizes: seq<(int, int)>) {
    forall j, k :: 0 <= j < k < |sizes| ==>
      sizes[j].0 > sizes[k].0 || (sizes[j].0 == sizes[k].0 && sizes[j].1 >= sizes[k].1)
  }

  lemma LargestIsFirst(p: seq<(int, int)>, q: seq<(int, int)>)
    requires SizesFall(p) && SizesFall(q) && multiset(p) == multiset(q) && p != [] && q != []
    ensures p[0] == q[0]
  {
    var j := MemberOfPermutation(p, q, 0);
    var k := MemberOfPermutation(q, p, 0);
  }

  lemma TailFalls(p: seq<(int, int)>)
    requires SizesFall(p) && p != []
    ensures SizesFall(p[1..]) && p == [p[0]] + p[1..] && p[..0] + p[1..] == p[1..]
  {
  }

  /** There is only one way to put sizes in order. */
  lemma {:induction false} FallingIsUnique(p: seq<(int, int)>, q: seq<(int, int)>)
    requires SizesFall(p) && SizesFall(q) && multiset(p) == multiset(q)
    ensures p == q
  {
    hide SizesFall;
    assert |multiset(p)| == |p| && |multiset(q)| == |q|;
    if p != [] {
      LargestIsFirst(p, q);
      WithoutOne(p, q, 0, 0);
      TailFalls(p);
      TailFalls(q);
      FallingIsUnique(p[1..], q[1..]);
    }
  }

  /** A turn has one outcome. */
  lemma TriedIsUnique(g: Target, r: Rect, r': Rect, s: seq<Point>, t: seq<Point>, t': seq<Point>)
    requires 1 <= g.align && SizeOf(r) == SizeOf(r') && Tried(g, r, s, t) && Tried(g, r', s, t')
    ensures r.x == r'.x && r.y == r'.y && t == t'
  {
    hide NothingFits;
    if Placed(r) && Placed(r') {
      var i: nat :| PutAt(g, r, s, t, i);
      var i': nat :| PutAt(g, r', s, t', i');
      PutIsUnique(g, r, r', s, t, t', i, i');
    }
  }

  lemma PutIsUnique(g: Target, r: Rect, r': Rect, s: seq<Point>, t: seq<Point>, t': seq<Point>, i: nat, i': nat)
    requires 1 <= g.align && SizeOf(r) == SizeOf(r') && PutAt(g, r, s, t, i) && PutAt(g, r', s, t', i')
    ensures r.x == r'.x && r.y == r'.y && t == t'
  {
    hide LowestOver, Flush, BestOf, LeftmostLowest, HeightAt, MaxHeight, Waste, Raise, PointUpdate;
    var span := AlignedWidth(r.w, g.align);
    if g.mode == BottomLeft {
      LeftmostLowestIsUnique(s, s, g.width, span, r.x, r.y, r'.x, r'.y);
    } else {
      BestOfIsUnique(s, g.width, span, g.height - r.h, |s|, i, r.x, r.y, Waste(s, i, r.x, span),
                     i', r'.x, r'.y, Waste(s, i', r'.x, span));
    }
    SameSegment(s, i, i', r.x);
  }

  lemma SizesOfTurnsFall(rs: seq<Rect>, turns: seq<nat>)
    requires InTurn(rs, turns)
    ensures SizesFall(Mapped(SizeOf, InOrder(rs, turns)))
  {
  }

  /** Two calls with the same sizes, in whatever order and however the sort treats equal sizes, put down the same boxes
      over the same skylines. */
  lemma PackingIsDetermined(g: Target, rs: seq<Rect>, turns: seq<nat>, sky: seq<seq<Point>>,
                            rs': seq<Rect>, turns': seq<nat>, sky': seq<seq<Point>>)
    requires 1 <= g.align && PackedInTurn(g, rs, turns, sky) && PackedInTurn(g, rs', turns', sky') && sky[0] == sky'[0]
    requires multiset(Mapped(SizeOf, rs)) == multiset(Mapped(SizeOf, rs'))
    ensures sky == sky' && BoxesOf(InOrder(rs, turns)) == BoxesOf(InOrder(rs', turns'))
  {
    hide Tried, SizesFall, BoxesOf;
    var p, q := InOrder(rs, turns), InOrder(rs', turns');
    MappedPermutation(SizeOf, p, rs);
    MappedPermutation(SizeOf, q, rs');
    SizesOfTurnsFall(rs, turns);
    SizesOfTurnsFall(rs', turns');
    FallingIsUnique(Mapped(SizeOf, p), Mapped(SizeOf, q));
    assert |Mapped(SizeOf, p)| == |Mapped(SizeOf, q)|;
    forall k | 0 <= k < |p| ensures SizeOf(p[k]) == SizeOf(q[k]) {
      assert Mapped(SizeOf, p)[k] == Mapped(SizeOf, q)[k];
    }
    SameCourse(g, p, q, sky, sky', |p|);
    assert p[..|p|] == p && q[..|p|] == q;
    forall k | 0 <= k < |sky| ensures sky[k] == sky'[k] {
      SameCourse(g, p, q, sky, sky', k);
    }
  }

  lemma {:induction false} SameCourse(g: Target, p: seq<Rect>, q: seq<Rect>, sky: seq<seq<Point>>, sky': seq<seq<Point>>, k: nat)
    requires 1 <= g.align && Course(g, p, sky) && Course(g, q, sky') && sky[0] == sky'[0] && k <= |p| == |q|
    requires forall j :: 0 <= j < |p| ==> SizeOf(p[j]) == SizeOf(q[j])
    ensures sky[k] == sky'[k] && BoxesOf(p[..k]) == BoxesOf(q[..k])
  {
    hide Tried;
    if k > 0 {
      SameCourse(g, p, q, sky, sky', k - 1);
      assert Tried(g, p[k - 1], sky[k - 1], sky[k - 1 + 1]) && Tried(g, q[k - 1], sky'[k - 1], sky'[k - 1 + 1]);
      TriedIsUnique(g, p[k - 1], q[k - 1], sky[k - 1], sky[k], sky'[k]);
      assert p[..k][..k - 1] == p[..k - 1] && q[..k][..k - 1] == q[..k - 1];
    }
  }

  lemma WidthsOfPermutation(original: seq<Rect>, tagged: seq<Rect>, sorted: seq<Rect>, mode: Heuristic, width: int, align: int)
    requires 1 <= align && WidthsAllowed(original, mode, width, align)
    requires Tagged(tagged, original) && multiset(sorted) == multiset(tagged)
    ensures WidthsAllowed(sorted, mode, width, align)
  {
    forall i | 0 <= i < |sorted| ensures WidthAllowed(sorted[i], mode, width, align) {
      var j := MemberOfPermutation(sorted, tagged, i);
      assert WidthAllowed(original[j], mode, width, align);
    }
  }

  lemma Conclude(original: seq<Rect>, packed: seq<Rect>, back: seq<Rect>, final: seq<Rect>, before: seq<Box>, after: seq<Box>,
                 s: seq<Point>, width: int, height: int, align: int, enough: bool)
    requires 1 <= align && Tagged(back, original) && multiset(back) == multiset(packed)
    requires SettledAll(packed, s, width, height, align, enough) && after == before + BoxesOf(packed)
    requires |final| == |back|
    requires forall k :: 0 <= k < |back| ==> final[k] == back[k].(wasPacked := if Marked(back[k]) then 0 else 1)
    ensures Delivered(final, original, before, after)
    ensures SettledAll(final, s, width, height, align, enough)
  {
    forall k | 0 <= k < |final| ensures Settled(final[k], s, width, height, align, enough) {
      var j := MemberOfPermutation(back, packed, k);
      assert Settled(packed[j], s, width, height, align, enough);
    }
    BoxesOfPermutation(back, packed);
    BoxesIgnoreFlags(back, final);
    assert after[|before|..] == BoxesOf(packed);
  }
}
