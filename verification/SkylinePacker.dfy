/** The packer's context: an active list of skyline nodes and a free list, spliced in place.

    The 16-bit build is modelled: node coordinates are unsigned 16-bit values and every store into one goes
    through ToCoord, so that "nothing is truncated" is something the proofs below have to establish.
 */
module SkylinePacker {
  import opened Skyline

  const MAXVAL: int := 0xffff

  type coord = c: int | 0 <= c <= 0xffff

  /** The cast to a 16-bit unsigned coordinate. */
  function ToCoord(v: int): coord {
    v % 0x10000
  }

  datatype Heuristic = BottomLeft | BestFit

  class Node {
    var x: coord
    var y: coord
    var next: Node?

    constructor () {
      x, y, next := 0, 0, null;
    }
  }

  /** A pointer to the pointer that refers to a node: the list head, or the next field of a node. */
  datatype Link = Missing | AtHead | After(node: Node)

  datatype FindResult = FindResult(x: int, y: int, link: Link)

  /** Running best of the position search. */
  datatype Choice = Choice(x: int, y: int, waste: int, link: Link)

  // ---------- Linked lists of nodes, seen as sequences ----------

  ghost predicate Linked(head: Node?, ns: seq<Node>)
    reads ns
  {
    && head == (if ns == [] then null else ns[0])
    && (forall k {:trigger ns[k].next} :: 0 <= k < |ns| - 1 ==> ns[k].next == ns[k + 1])
    && (ns != [] ==> ns[|ns| - 1].next == null)
  }

  ghost predicate Distinct(ns: seq<Node>) {
    forall i, j :: 0 <= i < j < |ns| ==> ns[i] != ns[j]
  }

  /** Two duplicate-free lists without a common node that together hold exactly the pool. */
  ghost predicate Partition(pool: set<Node>, ns: seq<Node>, ms: seq<Node>) {
    && Distinct(ns) && Distinct(ms)
    && (forall n :: n in ns ==> n in pool)
    && (forall n :: n in ms ==> n in pool && n !in ns)
    && (forall n :: n in pool ==> n in ns || n in ms)
  }

  /** The first node of ms becomes node k of ns. */
  lemma PartitionInsert(pool: set<Node>, ns: seq<Node>, ms: seq<Node>, k: nat)
    requires Partition(pool, ns, ms) && ms != [] && k <= |ns|
    ensures Partition(pool, ns[..k] + [ms[0]] + ns[k..], ms[1..])
  {
    var ns' := ns[..k] + [ms[0]] + ns[k..];
    assert ms == [ms[0]] + ms[1..];
    assert ns == ns[..k] + ns[k..];
    forall n ensures n in ns' <==> n in ns || n == ms[0] {
      assert n in ns <==> n in ns[..k] || n in ns[k..];
    }
    assert ms[0] in ms;
  }

  /** Node k of ns becomes the first of ms. */
  lemma PartitionRemove(pool: set<Node>, ns: seq<Node>, ms: seq<Node>, k: nat)
    requires Partition(pool, ns, ms) && k < |ns|
    ensures Partition(pool, ns[..k] + ns[k + 1..], [ns[k]] + ms)
  {
    var ns' := ns[..k] + ns[k + 1..];
    assert ns == ns[..k] + [ns[k]] + ns[k + 1..];
    forall n ensures n in ns <==> n in ns' || n == ns[k] {
      assert n in ns <==> n in ns[..k] || n == ns[k] || n in ns[k + 1..];
    }
    assert ns[k] !in ns';
  }

  ghost function Points(ns: seq<Node>): (s: seq<Point>)
    reads ns
    ensures |s| == |ns|
    ensures forall k :: 0 <= k < |ns| ==> s[k] == Point(ns[k].x, ns[k].y)
  {
    seq(|ns|, k requires 0 <= k < |ns| reads ns => Point(ns[k].x, ns[k].y))
  }

  /** The width rounded up to a multiple of the alignment. */
  function AlignedWidth(w: int, align: int): (r: int)
    requires 1 <= align
    ensures w <= r < w + align
  {
    w + align - 1 - (w + align - 1) % align
  }

  lemma AlignedWidthRoundsUp(w: int, align: int)
    requires 1 <= align
    ensures AlignedWidth(w, align) % align == 0
    ensures align == 1 ==> AlignedWidth(w, align) == w
  {
    var v := w + align - 1;
    assert v == align * (v / align) + v % align;
    MultipleHasNoRemainder(v / align, align);
  }

  lemma MultipleHasNoRemainder(q: int, d: int)
    requires 1 <= d
    ensures (d * q) % d == 0
  {
    var r := (d * q) % d;
    var p := (d * q) / d;
    assert d * q == d * p + r;
    assert d * (q - p) == r;
    MulSpread(d, q - p);
  }

  lemma MulSpread(d: int, k: int)
    requires 1 <= d
    ensures 1 <= k ==> d <= d * k
    ensures k <= -1 ==> d * k <= -d
    ensures k <= 0 ==> d * k <= 0
  {
    if 1 <= k {
      assert d * k == d + d * (k - 1);
    } else {
      assert d * -k == -(d * k);
      if k <= -1 {
        assert d * -k == d + d * (-k - 1);
      }
    }
  }

  // ---------- The waste that best fit compares ----------

  /** The running sum of the search from node i on: as the row rises, everything visited is charged for it. */
  function RunningWaste(s: seq<Point>, i: nat, x0: int, w: int, x1: int, minY: int, waste: int, visited: int): int
    decreases |s| - i
  {
    if i + 1 >= |s| || x1 <= s[i].x then waste
    else if s[i].y > minY then
      RunningWaste(s, i + 1, x0, w, x1, s[i].y, waste + visited * (s[i].y - minY),
                   visited + (s[i + 1].x - (if s[i].x < x0 then x0 else s[i].x)))
    else
      var under := s[i + 1].x - s[i].x;
      var used := if under + visited > w then w - visited else under;
      RunningWaste(s, i + 1, x0, w, x1, minY, waste + used * (minY - s[i].y), visited + used)
  }

  /** The waste the search reports for w columns starting at x0 inside segment k. */
  function Waste(s: seq<Point>, k: nat, x0: int, w: int): int {
    RunningWaste(s, k, x0, w, x0 + w, 0, 0, 0)
  }

  lemma WasteIs(s: seq<Point>, i: nat, x0: int, w: int, x1: int, minY: int, waste: int, visited: int)
    requires x1 == x0 + w
    ensures Waste(s, i, x0, w) == RunningWaste(s, i, x0, w, x1, 0, 0, 0)
    ensures i < |s| && x1 <= s[i].x ==> RunningWaste(s, i, x0, w, x1, minY, waste, visited) == waste
  {
  }

  class Context {
    var width: int
    var height: int
    var align: int
    var heuristic: Heuristic
    var numNodes: int
    var activeHead: Node?
    var freeHead: Node?
    const extra0: Node
    const extra1: Node

    ghost var active: seq<Node>
    ghost var free: seq<Node>
    ghost var pool: set<Node>
    ghost var placed: seq<Box>

    /** Both lists are acyclic and disjoint, together hold all numNodes+2 nodes, and the active one is a
        skyline over everything placed so far. */
    ghost predicate Valid()
      reads this, pool
    {
      Laid() && 1 <= align
    }

    ghost predicate Laid()
      reads this, pool
    {
      && ListsOk()
      && 1 <= width <= MAXVAL && height <= MAXVAL
      && IsSkyline(Points(active), width)
      && IsPacking(Points(active), placed, width, height)
    }

    ghost predicate ListsOk()
      reads this, pool
    {
      && 1 <= numNodes
      && Partition(pool, active, free)
      && Linked(activeHead, active) && Linked(freeHead, free)
      && |active| + |free| == numNodes + 2
    }

    /** Writes elsewhere do not touch the packer. */
    twostate lemma Untouched()
      requires old(Valid()) && unchanged(this) && unchanged(pool)
      ensures Valid() && Skyline() == old(Skyline())
    {
    }

    twostate lemma SameWalk()
      requires old(Walkable()) && unchanged(this) && unchanged(active)
      ensures Walkable() && Skyline() == old(Skyline())
    {
    }

    /** What a walk along the active list relies on. */
    ghost predicate Walkable()
      reads this, active
    {
      Linked(activeHead, active) && IsSkyline(Points(active), width) && width <= MAXVAL
    }

    ghost function Skyline(): seq<Point>
      reads this, active
    {
      Points(active)
    }

    /** The rounded width the position search works with. */
    function Span(w: int): int
      requires 1 <= align
      reads this
    {
      AlignedWidth(w, align)
    }

    constructor ()
      ensures extra0 != extra1 && fresh(extra0) && fresh(extra1)
    {
      extra0 := new Node();
      extra1 := new Node();
      width, height, align, heuristic, numNodes := 0, 0, 1, BottomLeft, 0;
      activeHead, freeHead := null, null;
      active, free, pool, placed := [], [], {}, [];
    }

    method SetupHeuristic(h: Heuristic)
      requires Valid()
      modifies this`heuristic
      ensures Valid() && heuristic == h
    {
      heuristic := h;
    }

    method SetupAllowOutOfMem(allow: bool)
      requires ListsOk() && 0 <= width
      modifies this`align
      ensures ListsOk() && Skyline() == old(Skyline()) && (old(Laid()) ==> Valid())
      ensures allow ==> align == 1
      ensures !allow ==> width <= numNodes * align < width + numNodes
      ensures !allow ==> (align == 0 <==> width == 0)
    {
      if allow {
        align := 1;
      } else {
        CeilingDivision(width, numNodes);
        align := (width + numNodes - 1) / numNodes;
      }
    }

    lemma CeilingDivision(a: int, b: int)
      requires 0 <= a && 1 <= b
      ensures (a + b - 1) / b == 0 <==> a == 0
      ensures 0 <= (a + b - 1) / b
      ensures a <= b * ((a + b - 1) / b) < a + b
    {
      var v := a + b - 1;
      assert v == b * (v / b) + v % b;
      MulSpread(b, v / b);
    }

    /** Chains the caller's nodes into one list. */
    static method LinkInOrder(nodes: array<Node>, n: int)
      requires 1 <= n <= nodes.Length && Distinct(nodes[..n])
      modifies nodes[..n]
      ensures nodes[..n] == old(nodes[..n]) && Linked(nodes[0], nodes[..n])
    {
      var i := 0;
      while i < n - 1
        invariant 0 <= i <= n - 1
        invariant forall k :: 0 <= k < i ==> nodes[..n][k].next == nodes[k + 1]
      {
        assert nodes[..n][i] == nodes[i];
        nodes[i].next := nodes[i + 1];
        i := i + 1;
      }
      assert nodes[..n][i] == nodes[i];
      nodes[i].next := null;
    }

    /** stbrp_init_target. A target without columns gets the alignment 0, with which no width can be rounded; every other
        one is ready for packing. */
    method InitTarget(width: int, height: int, nodes: array<Node>, numNodes: int)
      requires 0 <= width <= MAXVAL && height <= MAXVAL
      requires 1 <= numNodes <= nodes.Length
      requires Distinct(nodes[..numNodes]) && extra0 != extra1
      requires extra0 !in nodes[..numNodes] && extra1 !in nodes[..numNodes]
      modifies this, extra0, extra1, nodes[..numNodes]
      ensures ListsOk() && placed == [] && pool == {extra0, extra1} + set n | n in nodes[..numNodes]
      ensures this.width == width && this.height == height && this.numNodes == numNodes && heuristic == BottomLeft
      ensures width <= numNodes * align < width + numNodes
      ensures Skyline() == [Point(0, 0), Point(width, MAXVAL)]
      ensures 1 <= width ==> Valid()
      ensures width == 0 ==> align == 0
    {
      hide Linked, Distinct, Partition, IsSkyline, IsPacking, ListsOk, Laid, Points;
      LayNodes(width, nodes, numNodes);
      SetSize(width, height);
      SetupAllowOutOfMem(false);
    }

    /** The two lists of a fresh target. */
    method LayNodes(width: int, nodes: array<Node>, numNodes: int)
      requires 0 <= width <= MAXVAL && 1 <= numNodes <= nodes.Length
      requires Distinct(nodes[..numNodes]) && extra0 != extra1
      requires extra0 !in nodes[..numNodes] && extra1 !in nodes[..numNodes]
      modifies this, extra0, extra1, nodes[..numNodes]
      ensures ListsOk() && pool == {extra0, extra1} + set n | n in nodes[..numNodes]
      ensures this.numNodes == numNodes && Skyline() == [Point(0, 0), Point(width, MAXVAL)]
    {
      hide Linked, Distinct, Partition, ListsOk, Points;
      SetEnds(width);
      ghost var ends, s := [extra0, extra1], [Point(0, 0), Point(width, MAXVAL)];
      LinkInOrder(nodes, numNodes);
      assert Points(ends) == s;
      SetLists(nodes[0], numNodes, nodes[..numNodes]);
      assert Points(ends) == s;
    }

    method SetSize(width: int, height: int)
      requires 0 <= width <= MAXVAL && height <= MAXVAL
      requires ListsOk() && Skyline() == [Point(0, 0), Point(width, MAXVAL)]
      modifies this`heuristic, this`width, this`height, this`placed
      ensures ListsOk() && placed == [] && (1 <= width ==> Laid())
      ensures this.width == width && this.height == height && heuristic == BottomLeft
      ensures Skyline() == old(Skyline())
    {
      heuristic := BottomLeft;
      this.width := width;
      this.height := height;
      placed := [];
      if 1 <= width {
        EmptyTarget(width, height, MAXVAL);
      }
    }

    method SetLists(firstFree: Node, numNodes: int, ghost ns: seq<Node>)
      requires 1 <= numNodes == |ns|
      requires Distinct(ns) && extra0 !in ns && extra1 !in ns && extra0 != extra1
      requires Linked(firstFree, ns) && Linked(extra0, [extra0, extra1])
      modifies this
      ensures ListsOk() && this.numNodes == numNodes
      ensures active == [extra0, extra1] && free == ns && pool == {extra0, extra1} + set n | n in ns
    {
      freeHead := firstFree;
      activeHead := extra0;
      this.numNodes := numNodes;
      active, free := [extra0, extra1], ns;
      pool := {extra0, extra1} + set n | n in ns;
    }

    /** Node 0 is the full width, node 1 the sentinel. */
    method SetEnds(width: int)
      requires 0 <= width <= MAXVAL && extra0 != extra1
      modifies extra0, extra1
      ensures Points([extra0, extra1]) == [Point(0, 0), Point(width, MAXVAL)]
      ensures Linked(extra0, [extra0, extra1])
    {
      extra0.x := 0;
      extra0.y := 0;
      extra0.next := extra1;
      extra1.x := ToCoord(width);
      extra1.y := 65535;
      extra1.next := null;
    }

    /** With as many nodes as columns the free list is never empty. */
    lemma FreeNodeLeft()
      requires Valid() && width <= numNodes
      ensures free != []
    {
      SkylineLength(Skyline(), width);
    }

    // ---------- Searching for a position ----------

    /** Lowest row for a span starting at x0, with the area it would waste. The list is walked once and the
        waste is corrected each time the row rises. */
    method FindMinY(first: Node, x0: int, w: int, ghost k: nat) returns (minY: int, waste: int)
      requires Walkable() && 0 < w && x0 + w <= width
      requires k + 1 < |active| && first == active[k] && first.x <= x0 < active[k + 1].x
      ensures minY == MaxHeight(Skyline(), x0, w) && 0 <= minY <= MAXVAL
      ensures waste == Waste(Skyline(), k, x0, w)
      ensures first.x == x0 || 0 < first.y ==> waste == WastedArea(Skyline(), x0, w, minY)
    {
      hide Visited, RunningWaste, Waste, MaxHeight, WastedArea, IsSkyline, Linked, Points;
      ghost var s := Skyline();
      ghost var i, v := k, 0;
      ghost var exact := first.x == x0 || 0 < first.y;
      var node: Node? := first;
      var x1 := x0 + w;
      var visited := 0;
      minY, waste := 0, 0;
      VisitBounds(s, k, x0, w, x1, exact);
      WasteIs(s, k, x0, w, x1, 0, 0, 0);
      while node.x < x1
        invariant OnSegment(node, i, s)
        invariant Visited(s, k, i, x0, x1, v, minY, waste, visited, exact)
        invariant RunningWaste(s, i, x0, w, x1, minY, waste, visited) == Waste(s, k, x0, w)
        decreases |active| - i
      {
        node, minY, waste, visited, v := VisitNode(node, x0, w, x1, minY, waste, visited, s, k, i, v, exact);
        i := i + 1;
      }
      assert s[i].x == node.x;
      WasteIs(s, i, x0, w, x1, minY, waste, visited);
    }

    ghost predicate OnSegment(node: Node?, i: nat, s: seq<Point>)
      reads this, active
    {
      Walkable() && Skyline() == s && i < |active| && node == active[i]
    }

    method VisitNode(node: Node, x0: int, w: int, x1: int, minY0: int, waste0: int, visited0: int,
                     ghost s: seq<Point>, ghost k: nat, ghost i: nat, ghost v: nat, ghost exact: bool)
      returns (next: Node, minY: int, waste: int, visited: int, ghost v': nat)
      requires OnSegment(node, i, s) && node.x < x1 <= width && 0 < w && x1 == x0 + w
      requires k + 1 < |s| && x0 < s[k + 1].x && Visited(s, k, i, x0, x1, v, minY0, waste0, visited0, exact)
      ensures OnSegment(next, i + 1, s)
      ensures Visited(s, k, i + 1, x0, x1, v', minY, waste, visited, exact)
      ensures RunningWaste(s, i + 1, x0, w, x1, minY, waste, visited) == RunningWaste(s, i, x0, w, x1, minY0, waste0, visited0)
    {
      SegmentFacts(node, i, x1);
      next := node.next;
      label Before:
      minY, waste, visited, v' :=
        Visit(node.x, node.y, next.x, x0, w, x1, minY0, waste0, visited0, s, k, i, v, exact);
      SameWalk@Before();
    }

    lemma SegmentFacts(node: Node, i: nat, x1: int)
      requires Walkable() && i < |active| && node == active[i] && node.x < x1 <= width
      ensures i + 1 < |active| && node.next == active[i + 1]
      ensures Skyline()[i] == Point(node.x, node.y) && Skyline()[i + 1].x == node.next.x
    {
      assert Skyline()[i] == Point(node.x, node.y);
    }

    /** One segment: the row rises and everything visited so far is charged for it, or the segment itself is. */
    static method Visit(x: int, y: int, nextX: int, x0: int, w: int, x1: int, minY0: int, waste0: int, visited0: int,
                        ghost s: seq<Point>, ghost k: nat, ghost i: nat, ghost v: nat, ghost exact: bool)
      returns (minY: int, waste: int, visited: int, ghost v': nat)
      requires 0 < w && Ordered(s) && x1 == x0 + w && Visited(s, k, i, x0, x1, v, minY0, waste0, visited0, exact)
      requires i + 1 < |s| && s[i] == Point(x, y) && s[i + 1].x == nextX
      requires x < x1 && 0 <= y <= MAXVAL && (i == k ==> x0 < nextX)
      ensures Visited(s, k, i + 1, x0, x1, v', minY, waste, visited, exact)
      ensures RunningWaste(s, i + 1, x0, w, x1, minY, waste, visited) == RunningWaste(s, i, x0, w, x1, minY0, waste0, visited0)
    {
      minY, waste, visited := minY0, waste0, visited0;
      if y > minY {
        waste := waste + visited * (y - minY);
        minY := y;
        if x < x0 {
          visited := visited + (nextX - x0);
        } else {
          visited := visited + (nextX - x);
        }
      } else {
        var underWidth := nextX - x;
        if underWidth + visited > w {
          underWidth := w - visited;
        }
        waste := waste + underWidth * (minY - y);
        visited := visited + underWidth;
      }
      v' := VisitStep(s, k, i, x0, w, x1, v, minY0, waste0, visited0, exact, minY, waste, visited);
    }

    /** After the segments k to i-1: v columns have been seen, and the running values describe exactly these. */
    static ghost predicate Visited(s: seq<Point>, k: nat, i: nat, x0: int, x1: int, v: nat,
                                   minY: int, waste: int, visited: int, exact: bool) {
      && k <= i < |s|
      && v == (if i == k then 0 else (if s[i].x < x1 then s[i].x else x1) - x0)
      && (i == k ==> s[i].x <= x0 < x1 && (exact ==> s[k].x == x0 || 0 < s[k].y))
      && (i > k ==> x0 < s[i].x)
      && minY == MaxHeight(s, x0, v) && 0 <= minY <= MAXVAL
      && (exact ==> waste == WastedArea(s, x0, v, minY) && (s[i].x < x1 ==> visited == v))
    }

    static lemma VisitBounds(s: seq<Point>, k: nat, x0: int, w: nat, x1: int, exact: bool)
      requires k + 1 < |s| && s[k].x <= x0 && 0 < w && x1 == x0 + w && (exact ==> s[k].x == x0 || 0 < s[k].y)
      ensures Visited(s, k, k, x0, x1, 0, 0, 0, 0, exact)
      ensures forall i: nat, v: nat, minY, waste, visited ::
                Visited(s, k, i, x0, x1, v, minY, waste, visited, exact) && x1 <= s[i].x ==>
                  && v == w && minY == MaxHeight(s, x0, w) && 0 <= minY <= MAXVAL
                  && (exact ==> waste == WastedArea(s, x0, w, minY))
    {
    }

    static lemma VisitStep(s: seq<Point>, k: nat, i: nat, x0: int, w: nat, x1: int, v: nat, minY: int, waste: int,
                           visited: int, exact: bool, minY': int, waste': int, visited': int) returns (v': nat)
      requires Ordered(s) && x1 == x0 + w && Visited(s, k, i, x0, x1, v, minY, waste, visited, exact)
      requires i + 1 < |s| && s[i].x < x1 && 0 <= s[i].y <= MAXVAL && (i == k ==> x0 < s[i + 1].x)
      requires minY < s[i].y ==>
                 && minY' == s[i].y && waste' == waste + visited * (s[i].y - minY)
                 && visited' == visited + (s[i + 1].x - (if s[i].x < x0 then x0 else s[i].x))
      requires s[i].y <= minY ==>
                 var under := s[i + 1].x - s[i].x;
                 var used := if under + visited > w then w - visited else under;
                 minY' == minY && waste' == waste + used * (minY - s[i].y) && visited' == visited + used
      ensures Visited(s, k, i + 1, x0, x1, v', minY', waste', visited', exact)
    {
      IndexOrder(s, i, i + 1);
      var step: nat := (if s[i + 1].x < x1 then s[i + 1].x else x1) - (x0 + v);
      StepAcross(s, i, x0, v, step, minY);
      v' := v + step;
      if exact {
        assert visited == v;
        if minY < s[i].y {
          assert waste' == WastedArea(s, x0, v', minY');
        } else {
          var under := s[i + 1].x - s[i].x;
          var used := if under + visited > w then w - visited else under;
          assert used == step;
          assert waste' == WastedArea(s, x0, v', minY');
        }
      }
    }

    /** What one segment adds to the running maximum and to the running waste. */
    static lemma StepAcross(s: seq<Point>, i: nat, x0: int, v: nat, step: nat, minY: int)
      requires Ordered(s) && i + 1 < |s| && 0 < step
      requires s[i].x <= x0 + v && x0 + v + step <= s[i + 1].x
      requires minY == MaxHeight(s, x0, v)
      ensures MaxHeight(s, x0, v + step) == Max(minY, s[i].y)
      ensures s[i].y <= minY ==>
                WastedArea(s, x0, v + step, minY) == WastedArea(s, x0, v, minY) + step * (minY - s[i].y)
      ensures WastedArea(s, x0, v + step, s[i].y) == WastedArea(s, x0, v, minY) + v * (s[i].y - minY)
    {
      var y := s[i].y;
      forall c | x0 + v <= c < x0 + v + step ensures HeightAt(s, c) == y {
        HeightInSegment(s, i, c);
      }
      MaxHeightFlat(s, x0, v, step, y);
      WastedAreaFlat(s, x0, v, step, y, minY);
      WastedAreaFlat(s, x0, v, step, y, y);
      WastedAreaRaise(s, x0, v, minY, y);
      assert step * (y - y) == 0;
    }

    /** The link refers to node i of the active list. */
    ghost predicate LinkAt(link: Link, i: nat)
      reads this
    {
      i < |active| && link == if i == 0 then AtHead else After(active[i - 1])
    }

    method Deref(link: Link, ghost i: nat) returns (node: Node)
      requires Linked(activeHead, active) && i < |active| && LinkAt(link, i)
      ensures node == active[i]
    {
      match link {
        case AtHead => node := activeHead;
        case After(n) => node := n.next;
      }
    }

    /** Left-aligned candidates: every node start with room for w columns to its right. */
    method ScanStarts(w: int, h: int, ghost room: int)
      returns (y: int, waste: int, link: Link, ghost n: nat, ghost i: nat)
      requires Walkable() && 0 < w && 0 < h && room == height - h
      ensures n < |active| && StartsWithRoom(Skyline(), width, w, n)
      ensures Scanned(Skyline(), heuristic, w, room, n, link != Missing, i, y, waste)
      ensures link != Missing ==> LinkAt(link, i)
    {
      hide Scanned, MaxHeight, Waste;
      ghost var s := Skyline();
      y, waste, link := NONE, NONE, Missing;
      ScanBegins(s, heuristic, w, room);
      n, i := 0, 0;
      var node: Node? := activeHead;
      var prev := AtHead;
      while node.x + w <= width
        invariant Walkable() && Skyline() == s
        invariant n < |active| && node == active[n] && LinkAt(prev, n)
        invariant n > 0 ==> s[n - 1].x + w <= width
        invariant Scanned(s, heuristic, w, room, n, link != Missing, i, y, waste)
        invariant link != Missing ==> i < n && LinkAt(link, i)
        decreases |active| - n
      {
        label Before:
        var yHere, wasteHere := CandidateAt(node, w, n);
        ghost var found := link != Missing;
        var take := Prefer(s, w, h, room, n, found, i, y, waste, yHere, wasteHere);
        if take {
          y, link, i := yHere, prev, n;
          if heuristic == BestFit {
            waste := wasteHere;
          }
        }

        SameWalk@Before();
        prev := After(node);
        node := node.next;
        n := n + 1;
        assert LinkAt(prev, n);
      }
      RoomEndsAt(s, width, w, n);
    }

    /** Whether the candidate at node n replaces the best one so far. */
    method Prefer(ghost s: seq<Point>, w: int, h: int, ghost room: int, ghost n: nat, ghost found: bool, ghost i: nat,
                  y: int, waste: int, yHere: int, wasteHere: int)
      returns (take: bool)
      requires 0 < w && n < |s| && room == height - h && Scanned(s, heuristic, w, room, n, found, i, y, waste)
      requires Ordered(s) && yHere == MaxHeight(s, s[n].x, w) && 0 <= yHere <= MAXVAL
      requires wasteHere == Waste(s, n, s[n].x, w)
      ensures take ==> Scanned(s, heuristic, w, room, n + 1, true, n, yHere,
                               if heuristic == BestFit then wasteHere else waste)
      ensures !take ==> Scanned(s, heuristic, w, room, n + 1, found, i, y, waste)
    {
      ScanStep(s, heuristic, w, room, n, found, i, y, waste, yHere, wasteHere);
      if heuristic == BottomLeft {
        take := yHere < y;
      } else {
        take := yHere + h <= height && (yHere < y || (yHere == y && wasteHere < waste));
      }
    }

    /** FindMinY at a node start. */
    method CandidateAt(node: Node, w: int, ghost n: nat) returns (y: int, waste: int)
      requires Walkable() && 0 < w
      requires n < |active| && node == active[n] && node.x + w <= width
      ensures n + 1 < |active| && node.next != null && node.next == active[n + 1]
      ensures y == MaxHeight(Skyline(), Skyline()[n].x, w) && 0 <= y <= MAXVAL
      ensures waste == Waste(Skyline(), n, Skyline()[n].x, w)
    {
      assert Skyline()[n].x == node.x;
      assert n + 1 < |active|;
      IndexOrder(Skyline(), n, n + 1);
      y, waste := FindMinY(node, node.x, w, n);
    }

    /** Moves on to the segment containing column xpos. */
    method AdvanceTo(start: Node, link: Link, xpos: int, ghost from: nat)
      returns (node: Node, prev: Link, ghost k: nat)
      requires Walkable() && 0 <= xpos < width
      requires from + 1 < |active| && start == active[from] && LinkAt(link, from) && start.x <= xpos
      ensures k + 1 < |active| && node == active[k] && LinkAt(prev, k)
      ensures node.x <= xpos < active[k + 1].x
    {
      hide Walkable;
      NextOf(from);
      node, prev, k := start, link, from;
      while node.next.x <= xpos
        invariant NodeAt(node, prev, k) && node.x <= xpos && node.next == active[k + 1]
        decreases |active| - k
      {
        NextInside(node, k, xpos);
        prev, node, k := After(node), node.next, k + 1;
      }
    }

    lemma NextOf(k: nat)
      requires Walkable() && k < |active|
      ensures active[k].next == if k + 1 < |active| then active[k + 1] else null
    {
      hide IsSkyline, Points;
    }

    lemma NextInside(node: Node, k: nat, xpos: int)
      requires Walkable() && k + 1 < |active| && node == active[k] && xpos < width
      requires node.next != null && node.next.x <= xpos
      ensures k + 2 < |active| && NodeAt(node.next, After(node), k + 1) && node.next.next == active[k + 2]
    {
      hide Linked, Ordered;
      NextOf(k);
      NextOf(k + 1);
      assert Skyline()[k + 1].x == node.next.x;
    }

    /** The best candidate among the left-aligned ones and those ending at one of the first n nodes; or there is none
        and nothing can fit. */
    ghost predicate Chosen(c: Choice, i: nat, w: nat, room: int, n: nat)
      reads this, active
    {
      if c.link == Missing then
        NothingFits(Skyline(), width, w, room) && c.y == NONE
      else
        LinkAt(c.link, i) && BestOf(Skyline(), width, w, room, n, i, c.x, c.y, c.waste)
    }

    ghost predicate NodeAt(node: Node, link: Link, k: nat)
      reads this
    {
      k + 1 < |active| && node == active[k] && LinkAt(link, k)
    }

    ghost predicate TailAt(tail: Node?, t: nat)
      reads this
    {
      t <= |active| && tail == (if t < |active| then active[t] else null)
    }

    lemma HeadExists()
      requires Walkable()
      ensures activeHead != null && activeHead == active[0]
    {
    }

    /** Right-aligned candidates of best fit: spans ending at a node's x. */
    method ScanEnds(w: int, h: int, ghost room: int, c0: Choice, ghost i0: nat) returns (c: Choice, ghost i: nat)
      requires Walkable() && 0 < w <= width && 0 < h && room == height - h && Chosen(c0, i0, w, room, 0)
      ensures Chosen(c, i, w, room, |active|)
    {
      hide BestOf, MaxHeight, Waste, NothingFits, IsSkyline, Linked, Points;
      HeadExists();
      c, i := c0, i0;
      var node: Node, prev, tail: Node? := activeHead, AtHead, null;
      ghost var k: nat, t: nat := 0, 0;
      ghost var s := Skyline();
      tail, t := FirstEnd(w, s);
      if c.link != Missing {
        EndsSkipped(s, width, w, room, t, i, c.x, c.y, c.waste);
      }
      while tail != null
        invariant EndsFrom(node, prev, k, tail, t, w, s)
        invariant Chosen(c, i, w, room, t)
        decreases |active| - t
      {
        node, prev, k, c, i, tail := EndStep(node, prev, k, w, h, room, tail, t, s, c, i);
        t := t + 1;
      }
    }

    /** The walk stands at node k and the next span ends at node t, right of a start inside or after segment k. */
    ghost predicate EndsFrom(node: Node, prev: Link, k: nat, tail: Node?, t: nat, w: int, s: seq<Point>)
      reads this, active
    {
      && Walkable() && Skyline() == s
      && NodeAt(node, prev, k) && TailAt(tail, t)
      && (tail != null ==> s[k].x + w <= s[t].x)
    }

    method EndStep(start: Node, link: Link, ghost from: nat, w: int, h: int, ghost room: int, tail: Node, ghost t: nat,
                   ghost s: seq<Point>, c0: Choice, ghost i0: nat)
      returns (node: Node, prev: Link, ghost k: nat, c: Choice, ghost i: nat, next: Node?)
      requires EndsFrom(start, link, from, tail, t, w, s) && 0 < w && 0 < h && room == height - h
      requires Chosen(c0, i0, w, room, t)
      ensures EndsFrom(node, prev, k, next, t + 1, w, s)
      ensures Chosen(c, i, w, room, t + 1)
    {
      hide BestOf, MaxHeight, Waste, NothingFits, Linked, Points, Chosen, HeightAt;
      TailColumn(tail, t);
      IndexOrder(s, 0, from);
      var xpos := tail.x - w;
      next := tail.next;
      label Before:
      node, prev, k, c, i := TryEnd(start, link, from, w, h, room, xpos, t, c0, i0);
      SameWalk@Before();
    }

    lemma TailColumn(tail: Node, t: nat)
      requires Walkable() && TailAt(tail, t)
      ensures t < |active| && tail.x == Skyline()[t].x <= width
      ensures TailAt(tail.next, t + 1)
      ensures tail.next != null ==> Skyline()[t].x < Skyline()[t + 1].x
    {
      hide Linked, Ordered;
      NextOf(t);
      ghost var s := Skyline();
      assert s[t].x == tail.x && s[|s| - 1].x == width;
      IndexOrder(s, |s| - 1, t);
      if t + 1 < |s| {
        IndexOrder(s, t, t + 1);
      }
    }

    /** One right-aligned candidate, the span starting at xpos and ending at node t. */
    method TryEnd(start: Node, link: Link, ghost from: nat, w: int, h: int, ghost room: int,
                  xpos: int, ghost t: nat, c0: Choice, ghost i0: nat)
      returns (node: Node, prev: Link, ghost k: nat, c: Choice, ghost i: nat)
      requires Walkable() && 0 < w && 0 < h && room == height - h && 0 <= xpos && xpos + w <= width
      requires NodeAt(start, link, from) && Skyline()[from].x <= xpos
      requires t < |active| && xpos + w == Skyline()[t].x && Chosen(c0, i0, w, room, t)
      ensures NodeAt(node, prev, k) && Skyline()[k].x <= xpos
      ensures Chosen(c, i, w, room, t + 1)
    {
      hide BestOf, MaxHeight, Waste, WastedArea, IsSkyline, Linked, Points;
      node, prev, k := AdvanceTo(start, link, xpos, from);
      ghost var s := Skyline();
      assert s[k].x == node.x && s[k + 1].x == active[k + 1].x;
      c, i := c0, i0;
      var y, waste := FindMinY(node, xpos, w, k);
      if c.link == Missing {
        assert room < MaxHeight(s, xpos, w);
      } else {
        EndTried(s, width, w, room, t, t + 1, i, c.x, c.y, c.waste, k, xpos, y, waste);
      }
      if y + h < height && y <= c.y {
        if y < c.y || waste < c.waste || (waste == c.waste && xpos < c.x) {
          c, i := Choice(xpos, y, waste, prev), k;
        }
      }
    }

    /** The first node that a span of width w can end at. */
    method FirstEnd(w: int, ghost s: seq<Point>) returns (tail: Node, ghost t: nat)
      requires Walkable() && Skyline() == s && 0 < w <= width
      ensures EndsFrom(activeHead, AtHead, 0, tail, t, w, s)
      ensures forall u :: 0 <= u < t ==> s[u].x < w
    {
      tail, t := activeHead, 0;
      assert s[|s| - 1].x == active[|active| - 1].x;
      while tail.x < w
        invariant t < |active| && tail == active[t]
        invariant forall u :: 0 <= u < t ==> s[u].x < w
        decreases |active| - t
      {
        tail, t := tail.next, t + 1;
      }
      assert s[t].x == tail.x;
    }

    /** The walk to the first admissible tail finds one exactly if the rounded width is at most the target's. Otherwise
        it passes the sentinel, whose next is null. */
    lemma SomeTailIff(w: int)
      requires Valid() && 0 < w
      ensures (exists k :: 0 <= k < |active| && w <= active[k].x) <==> w <= width
      ensures active[|active| - 1].next == null
    {
      var s := Skyline();
      assert s[|s| - 1].x == active[|active| - 1].x == width;
      forall k | 0 <= k < |active| ensures active[k].x <= width {
        IndexOrder(s, |s| - 1, k);
        assert s[k].x == active[k].x;
      }
    }

    /** The position the heuristic chooses. */
    method FindBestPos(w: int, h: int, ghost room: int, ghost s: seq<Point>)
      returns (r: FindResult, ghost i: nat, ghost span: nat)
      requires Walkable() && s == Skyline() && 1 <= align && 0 < w && 0 < h && room == height - h
      requires heuristic == BestFit ==> Span(w) <= width
      ensures 0 < w <= span == Span(w)
      ensures Found(s, width, heuristic, r, i, span, room) && (r.link != Missing ==> LinkAt(r.link, i))
    {
      AlignedWidthRoundsUp(w, align);
      var wide := w + align - 1;
      wide := wide - wide % align;
      span := wide;
      r, i := ChooseSpot(wide, h, room, s);
    }

    method ChooseSpot(w: int, h: int, ghost room: int, ghost s: seq<Point>) returns (r: FindResult, ghost i: nat)
      requires Walkable() && s == Skyline() && 0 < w && 0 < h && room == height - h
      requires heuristic == BestFit ==> w <= width
      ensures Found(s, width, heuristic, r, i, w, room) && (r.link != Missing ==> LinkAt(r.link, i))
    {
      var c;
      label Before:
      c, i := BestStartOf(w, h, room, s);
      SameWalk@Before();
      if heuristic == BestFit {
        c, i := ScanEnds(w, h, room, c, i);
        if c.link != Missing {
          BestIsLowest(s, width, w, room, i, c.x, c.y, c.waste);
        }
      }
      r := FindResult(c.x, c.y, c.link);
      PlacementDecision(s, width, w, room, i, r);
    }

    /** The left-aligned scan with the x of its choice filled in. */
    method BestStartOf(w: int, h: int, ghost room: int, ghost s: seq<Point>) returns (c: Choice, ghost i: nat)
      requires Walkable() && s == Skyline() && 0 < w && 0 < h && room == height - h
      ensures heuristic == BestFit ==> Chosen(c, i, w, room, 0)
      ensures heuristic == BottomLeft && c.link == Missing ==> width < w
      ensures heuristic == BottomLeft && c.link != Missing ==>
                && LinkAt(c.link, i) && Supports(s, width, w, i, c.x, c.y) && c.x == s[i].x
                && LeftmostLowest(s, width, w, c.x, c.y)
    {
      var y, waste, link;
      ghost var n;
      label Before:
      y, waste, link, n, i := ScanStarts(w, h, room);
      SameWalk@Before();
      ScanResult(s, heuristic, width, w, room, n, link != Missing, i, y, waste);
      var x := 0;
      if link != Missing {
        var best := Deref(link, i);
        x := best.x;
        assert s[i].x == x;
      }
      c := Choice(x, y, waste, link);
    }

    // ---------- Splicing the list ----------

    /** The lists in the middle of a splice: everything holds except that node k is not linked on yet. */
    ghost predicate Open(k: nat)
      reads this, pool
    {
      && Partition(pool, active, free)
      && k + 1 < |active| && activeHead == active[0]
      && (forall m {:trigger active[m].next} :: 0 <= m < |active| - 1 && m != k ==> active[m].next == active[m + 1])
      && active[|active| - 1].next == null
      && Linked(freeHead, free)
      && 1 <= numNodes && |active| + |free| == numNodes + 2
    }

    /** Takes the first free node and fills it in. */
    method TakeFree(x: int, y: int) returns (node: Node)
      requires ListsOk() && free != []
      requires 0 <= x <= MAXVAL && 0 <= y <= MAXVAL
      modifies this`freeHead, this`free, free[0]
      ensures node == old(free[0]) && node.x == x && node.y == y
      ensures free == old(free[1..]) && Linked(freeHead, free) && Linked(activeHead, active)
      ensures Partition(pool, active, [node] + free) && Holds(active, old(Skyline()))
    {
      assert free[0] in free && free[0] !in active;
      node := freeHead;
      node.x := ToCoord(x);
      node.y := ToCoord(y);
      freeHead := node.next;
      free := free[1..];
      assert [node] + free == old(free);
    }

    /** Hooks the node in after the node at the found position. */
    method HookAfter(node: Node, at: Node, ghost i: nat) returns (cur: Node)
      requires CanHook(node, i) && at == active[i]
      modifies this`active, pool`next
      ensures Open(i + 1) && active == old(active[..i + 1]) + [node] + old(active[i + 1..]) && cur == active[i + 2]
    {
      ghost var ns := active;
      cur := at.next;
      at.next := node;
      PartitionInsert(pool, ns, [node] + free, i + 1);
      active := ns[..i + 1] + [node] + ns[i + 1..];
      assert ([node] + free)[1..] == free;
    }

    /** Hooks the node in before the node at the found position. */
    method HookBefore(node: Node, link: Link, ghost i: nat)
      requires CanHook(node, i) && LinkAt(link, i)
      modifies this`activeHead, this`active, pool`next
      ensures Open(i) && active == old(active[..i]) + [node] + old(active[i..])
    {
      ghost var ns := active;
      match link {
        case AtHead => activeHead := node;
        case After(n) => n.next := node;
      }
      PartitionInsert(pool, ns, [node] + free, i);
      active := ns[..i] + [node] + ns[i..];
      assert ([node] + free)[1..] == free;
    }

    ghost predicate CanHook(node: Node, i: nat)
      reads this, pool
    {
      && Partition(pool, active, [node] + free)
      && Linked(activeHead, active) && Linked(freeHead, free)
      && i + 1 < |active| && 1 <= numNodes && |active| + |free| == numNodes + 1
    }

    method HookIn(node: Node, link: Link, ghost i: nat) returns (cur: Node, ghost k: nat)
      requires CanHook(node, i) && LinkAt(link, i)
      modifies this`activeHead, this`active, pool`next
      ensures k == (if old(active[i].x) < node.x then i + 1 else i) && Open(k)
      ensures active == old(active[..k]) + [node] + old(active[k..]) && cur == active[k + 1]
    {
      hide Partition, Open;
      cur := Deref(link, i);
      if cur.x < node.x {
        cur := HookAfter(node, cur, i);
        k := i + 1;
      } else {
        HookBefore(node, link, i);
        k := i;
      }
    }

    method OpenSlot(r: FindResult, top: int, ghost i: nat, ghost s: seq<Point>)
      returns (node: Node, cur: Node, ghost k: nat, ghost s1: seq<Point>)
      requires Skyline() == s
      requires ListsOk() && free != [] && LinkAt(r.link, i) && i + 1 < |active|
      requires 0 <= r.x <= MAXVAL && 0 <= top <= MAXVAL
      modifies this`activeHead, this`freeHead, this`active, this`free, pool
      ensures i < |s| && k == KeepCount(s, i, r.x) && Open(k)
      ensures cur == active[k + 1]
      ensures node == active[k] && IsInsert(s, s1, k, Point(r.x, top)) && Skyline() == s1
    {
      hide IsInsert, Linked, Open;
      ghost var ns := active;
      assert s[i].x == ns[i].x;
      node := TakeFree(r.x, top);
      cur, k := HookIn(node, r.link, i);
      PointsOfInsert(ns, node, k, active, s, Point(r.x, top));
      s1 := Points(active);
    }

    /** Point p inserted as point k. */
    static ghost predicate IsInsert(s: seq<Point>, t: seq<Point>, k: nat, p: Point) {
      && k <= |s| && |t| == |s| + 1 && t[k] == p
      && (forall m :: 0 <= m < k ==> t[m] == s[m])
      && (forall m {:trigger s[m]} :: k <= m < |s| ==> t[m + 1] == s[m])
    }

    /** The nodes ns currently carry the points s. */
    static ghost predicate Holds(ns: seq<Node>, s: seq<Point>)
      reads ns
    {
      |ns| == |s| && forall m :: 0 <= m < |ns| ==> ns[m].x == s[m].x && ns[m].y == s[m].y
    }

    static lemma PointsOfInsert(ns: seq<Node>, node: Node, k: nat, ms: seq<Node>, s: seq<Point>, p: Point)
      requires k <= |ns| && Holds(ns, s) && p == Point(node.x, node.y)
      requires ms == ns[..k] + [node] + ns[k..]
      ensures IsInsert(s, Points(ms), k, p) && ms[k] == node
    {
      assert forall m :: k <= m < |ns| ==> ms[m + 1] == ns[m];
    }

    /** Where point j of the trimmed list was before. */
    static function Before(j: int, k: nat, c: nat): int {
      if j < k then j else j - k + c
    }

    static lemma TrimOf(s: seq<Point>, t: seq<Point>, k: nat, c: nat, right: int)
      requires k <= c < |s| && |t| == |s| - (c - k)
      requires forall j :: 0 <= j < |t| ==> t[j] == if j == k then Point(Max(s[c].x, right), s[c].y) else s[Before(j, k, c)]
      ensures IsTrim(s, t, k, c, right)
    {
      forall m | c < m < |s| ensures t[m - c + k] == s[m] {
        assert Before(m - c + k, k, c) == m;
      }
      forall m | 0 <= m < k ensures t[m] == s[m] {
        assert Before(m, k, c) == m;
      }
    }

    static lemma NodeBefore(ns: seq<Node>, ms: seq<Node>, k: nat, c: nat, j: nat)
      requires k <= c < |ns| && ms == ns[..k] + ns[c..] && j < |ms| && Distinct(ms)
      ensures 0 <= Before(j, k, c) < |ns| && ms[j] == ns[Before(j, k, c)] && ms[j] in ms
      ensures ms[k] == ns[c] && (ms[j] == ns[c] <==> j == k)
    {
    }

    /** Node c alone has moved, and those between k and it have been freed. */
    static lemma PointsOfTrim(ns: seq<Node>, ms: seq<Node>, k: nat, c: nat, right: int, s: seq<Point>)
      requires k <= c < |ns| == |s| && ms == ns[..k] + ns[c..] && Distinct(ms)
      requires ns[c].x == Max(s[c].x, right) && ns[c].y == s[c].y
      requires forall m :: 0 <= m < |ns| && ns[m] in ms && ns[m] != ns[c] ==> ns[m].x == s[m].x && ns[m].y == s[m].y
      ensures IsTrim(s, Points(ms), k, c, right)
    {
      hide Distinct, IsTrim;
      var t := Points(ms);
      forall j | 0 <= j < |t|
        ensures t[j] == if j == k then Point(Max(s[c].x, right), s[c].y) else s[Before(j, k, c)]
      {
        NodeBefore(ns, ms, k, c, j);
      }
      TrimOf(s, t, k, c, right);
    }

    /** Moves the node after the new one to the free list. */
    method FreeNext(cur: Node, ghost k: nat) returns (next: Node)
      requires Open(k) && k + 2 < |active| && cur == active[k + 1]
      modifies this`freeHead, this`active, this`free, cur`next
      ensures Open(k) && next == active[k + 1]
      ensures active == old(active[..k + 1]) + old(active[k + 2..]) && free == [cur] + old(free)
    {
      next := cur.next;
      cur.next := freeHead;
      freeHead := cur;
      PartitionRemove(pool, active, free, k + 1);
      active, free := active[..k + 1] + active[k + 2..], [cur] + free;
    }

    /** Frees the nodes whose whole segment ends at or left of `right`; c is the first node kept. */
    method FreeCovered(first: Node, right: int, ghost k: nat) returns (cur: Node, ghost c: nat)
      requires Open(k) && first == active[k + 1]
      modifies this`freeHead, this`active, this`free, pool`next
      ensures Open(k) && cur == active[k + 1]
      ensures k < c < |old(active)| && active == old(active[..k + 1]) + old(active)[c..]
      ensures NodesStopAt(old(active), k + 1, c, right)
    {
      ghost var ns := active;
      cur, c := first, k + 1;
      assert ns == ns[..k + 1] + ns[c..];
      while cur.next != null && cur.next.x <= right
        invariant Freed(ns, k, c, cur, right)
        decreases |ns| - c
      {
        cur, c := FreeStep(cur, right, ns, k, c);
      }
      DropOne(ns, active, k, c);
    }

    /** Nodes k+1 to c-1 of the list ns have been freed. */
    ghost predicate Freed(ns: seq<Node>, k: nat, c: nat, cur: Node, right: int)
      reads this, pool, ns
    {
      && Open(k) && cur == active[k + 1]
      && k < c < |ns| && active == ns[..k + 1] + ns[c..]
      && forall m :: k + 1 < m <= c ==> ns[m].x <= right
    }

    method FreeStep(cur: Node, right: int, ghost ns: seq<Node>, ghost k: nat, ghost c: nat)
      returns (next: Node, ghost c': nat)
      requires Freed(ns, k, c, cur, right) && cur.next != null && cur.next.x <= right
      modifies this`freeHead, this`active, this`free, cur`next
      ensures c' == c + 1 && Freed(ns, k, c', next, right)
    {
      DropOne(ns, active, k, c);
      assert cur.next == active[k + 2];
      next := FreeNext(cur, k);
      c' := c + 1;
    }

    static lemma DropOne(ns: seq<Node>, now: seq<Node>, k: nat, c: nat)
      requires k < c < |ns| && now == ns[..k + 1] + ns[c..]
      ensures |now| == k + 1 + |ns| - c && now[..k + 1] == ns[..k + 1]
      ensures c + 1 < |ns| ==> now[k + 2] == ns[c + 1] && now[k + 2..] == ns[c + 1..]
    {
    }

    static ghost predicate NodesStopAt(ns: seq<Node>, from: nat, c: nat, right: int)
      reads ns
    {
      && from <= c < |ns|
      && (forall m :: from < m <= c ==> ns[m].x <= right)
      && (c + 1 < |ns| ==> right < ns[c + 1].x)
    }

    static ghost predicate StopsAt(s: seq<Point>, from: nat, c: nat, right: int) {
      && from <= c < |s|
      && (forall m :: from < m <= c ==> s[m].x <= right)
      && (c + 1 < |s| ==> right < s[c + 1].x)
    }

    /** Links the new node to what remains and trims the first remaining segment. */
    method Close(node: Node, cur: Node, right: int, ghost k: nat)
      requires Open(k) && node == active[k] && cur == active[k + 1] && right <= MAXVAL
      modifies node`next, cur`x
      ensures ListsOk()
      ensures cur.x == Max(old(cur.x), right)
      ensures forall n :: n in active && n != cur ==> n.x == old(n.x)
    {
      assert node in active;
      assert forall m :: 0 <= m < |free| ==> free[m] in free && free[m] != node;
      node.next := cur;
      if cur.x < right {
        cur.x := ToCoord(right);
        assert ToCoord(right) == right;
      }
    }

    lemma OpenInPool(k: nat)
      requires Open(k)
      ensures active[k] in pool && active[k + 1] in pool
    {
      hide Distinct, Linked;
    }

    lemma ActiveIsDistinct()
      requires ListsOk()
      ensures Distinct(active)
    {
      hide Distinct, Linked;
    }

    static lemma StopsWithNodes(ns: seq<Node>, s: seq<Point>, from: nat, c: nat, right: int)
      requires Points(ns) == s && NodesStopAt(ns, from, c, right)
      ensures StopsAt(s, from, c, right)
    {
    }

    /** Frees what the rectangle covers and stitches the list back together. */
    method Stitch(node: Node, first: Node, right: int, ghost k: nat, ghost s: seq<Point>)
      returns (ghost c: nat, ghost s': seq<Point>)
      requires Skyline() == s
      requires Open(k) && node == active[k] && first == active[k + 1] && right <= MAXVAL
      modifies this`freeHead, this`active, this`free, pool`next, pool`x
      ensures ListsOk()
      ensures StopsAt(s, k + 1, c, right)
      ensures IsTrim(s, s', k + 1, c, right) && Skyline() == s'
    {
      hide IsTrim, StopsAt, NodesStopAt, Holds, Linked, Distinct, Open, ListsOk, Partition;
      ghost var ns := active;
      var cur;
      cur, c := FreeCovered(first, right, k);
      assert cur == ns[c];
      StopsWithNodes(ns, s, k + 1, c, right);
      OpenInPool(k);
      Trim(node, cur, right, k, ns, c, s);
      s' := Skyline();
    }

    /** Closes the list that FreeCovered has left of ns. */
    method Trim(node: Node, cur: Node, right: int, ghost k: nat, ghost ns: seq<Node>, ghost c: nat, ghost s: seq<Point>)
      requires Open(k) && node == active[k] && cur == active[k + 1] && right <= MAXVAL
      requires k + 1 <= c < |ns| && cur == ns[c] && active == ns[..k + 1] + ns[c..] && Points(ns) == s
      modifies node`next, cur`x
      ensures ListsOk() && IsTrim(s, Skyline(), k + 1, c, right)
    {
      hide IsTrim, Linked, Distinct, Open, ListsOk, Partition;
      assert forall m :: 0 <= m < |ns| ==> ns[m].x == s[m].x && ns[m].y == s[m].y;
      Close(node, cur, right, k);
      ActiveIsDistinct();
      PointsOfTrim(ns, active, k + 1, c, right, s);
    }

    /** Points k to c-1 removed and point c moved to start no earlier than `right`. */
    static ghost predicate IsTrim(s: seq<Point>, t: seq<Point>, k: nat, c: nat, right: int) {
      && k <= c < |s| && |t| == |s| - (c - k)
      && (forall m :: 0 <= m < k ==> t[m] == s[m])
      && t[k] == Point(Max(s[c].x, right), s[c].y)
      && (forall m {:trigger s[m]} :: c < m < |s| ==> t[m - c + k] == s[m])
    }

    /** Inserts the new node, frees every node the rectangle covers and stitches the list back together. */
    method Splice(r: FindResult, w: int, top: int, ghost s: seq<Point>, ghost i: nat)
      requires Skyline() == s
      requires ListsOk() && free != [] && LinkAt(r.link, i) && i + 1 < |active|
      requires 0 < w && 0 <= r.x && r.x + w <= MAXVAL && 0 <= top <= MAXVAL
      modifies this`activeHead, this`freeHead, this`active, this`free, pool
      ensures ListsOk()
      ensures Skyline() == Raise(s, i, r.x, w, top)
    {
      var right := r.x + w;
      var node, cur;
      ghost var k: nat, c: nat, s1, s2;
      node, cur, k, s1 := OpenSlot(r, top, i, s);
      c, s2 := Stitch(node, cur, right, k, s1);
      InsertThenTrim(s, i, r.x, w, right, top, k, c, s1, s2);
    }

    /** The two stages of the splice compose to Raise. */
    static lemma InsertThenTrim(s: seq<Point>, i: nat, x: int, w: nat, right: int, top: int,
                                k: nat, c: nat, s1: seq<Point>, s2: seq<Point>)
      requires i + 1 < |s| && k == KeepCount(s, i, x)
      requires IsInsert(s, s1, k, Point(x, top))
      requires right == x + w && StopsAt(s1, k + 1, c, right) && IsTrim(s1, s2, k + 1, c, right)
      ensures s2 == Raise(s, i, x, w, top)
    {
      StopIsStopAt(s, s1, k, c, right);
      var r := Raise(s, i, x, w, top);
      assert s1[c] == s[c - 1];
      assert |s2| == |r|;
      forall m | 0 <= m < |r| ensures s2[m] == r[m] {
        if m > k + 1 {
          assert s1[m + c - (k + 1)] == s[m + c - (k + 1) - 1];
        }
      }
    }

    static lemma StopIsStopAt(s: seq<Point>, s1: seq<Point>, k: nat, c: nat, right: int)
      requires k < |s| && |s1| == |s| + 1 && forall m :: k <= m < |s| ==> s1[m + 1] == s[m]
      requires StopsAt(s1, k + 1, c, right)
      ensures StopAt(s, k, right) == c - 1
    {
      assert s1[c - 1 + 1] == s[c - 1];
      assert StopsAt(s, k, c - 1, right);
      StopIsUnique(s, k, c - 1, right);
    }

    static lemma {:induction false} StopIsUnique(s: seq<Point>, k: nat, c: nat, right: int)
      requires StopsAt(s, k, c, right)
      ensures StopAt(s, k, right) == c
      decreases c - k
    {
      if k < c {
        StopIsUnique(s, k + 1, c, right);
      }
    }

    // ---------- Packing one rectangle ----------

    /** Places one rectangle, or fails and changes nothing. With a free node at hand it fails only if no integer
        position leaves room. The ghost s is the skyline before the call. */
    method PackRectangle(w: int, h: int, ghost s: seq<Point>, ghost room: int)
      returns (r: FindResult, ghost i: nat, ghost span: nat)
      requires Valid() && Skyline() == s && 0 < w && 0 < h && room == height - h
      requires heuristic == BestFit ==> Span(w) <= width
      modifies this`activeHead, this`freeHead, this`active, this`free, this`placed, pool
      ensures Valid() && 0 < w <= span == Span(w)
      ensures Packed(s, Skyline(), width, heuristic, w, h, span, room, old(free) != [], r, i, old(placed), placed)
      ensures r.link == Missing ==> active == old(active) && free == old(free)
      ensures r.link != Missing && (heuristic == BottomLeft || align == 1) ==>
                PointUpdate(s, Skyline(), width, r.x, w, r.y + h)
    {
      hide Packed, PointUpdate, Partition, IsPacking, IsSkyline;
      AlignedWidthRoundsUp(w, align);
      r, i, span := FindBestPos(w, h, room, s);
      DecideOutcome(s, width, heuristic, w, h, span, room, r, i, placed);
      if r.link == Missing || r.y + h > height || freeHead == null {
        r := r.(link := Missing);
      } else {
        Place(r, w, h, s, i, span);
      }
      ghost var t := Skyline();
      PackedUpdate(s, t, width, heuristic, w, h, span, room, old(free) != [], r, i, old(placed), placed);
    }

    method Place(r: FindResult, w: int, h: int, ghost s: seq<Point>, ghost i: nat, ghost span: nat)
      requires Valid() && 0 < w <= span && 0 < h && r.y + h <= height && free != []
      requires LinkAt(r.link, i) && Skyline() == s && Supports(s, width, span, i, r.x, r.y)
      modifies this`activeHead, this`freeHead, this`active, this`free, this`placed, pool
      ensures Valid()
      ensures placed == old(placed) + [Box(r.x, r.y, w, h)]
      ensures Raised(s, Skyline(), width, i, Box(r.x, r.y, w, h))
    {
      var top := r.y + h;
      ghost var b, boxes := Box(r.x, r.y, w, h), placed;
      CanPlace(s, width, i, r.x, r.y, w, span);
      ghost var t := Raise(s, i, r.x, w, top);
      AfterPlacing(s, t, boxes, width, height, i, b, r.x, w, span, top);
      Splice(r, w, top, s, i);
      Record(t, boxes + [b]);
    }

    ghost method Record(t: seq<Point>, boxes: seq<Box>)
      requires ListsOk() && Skyline() == t && IsSkyline(t, width) && IsPacking(t, boxes, width, height)
      requires 1 <= width <= MAXVAL && height <= MAXVAL && 1 <= align
      modifies this`placed
      ensures Valid() && placed == boxes && Skyline() == t
    {
      placed := boxes;
    }
  }

  // ---------- What the left-aligned scan has established after n nodes ----------

  const NONE: int := 0x4000_0000

  /** Exactly the first n nodes leave room for w columns. */
  ghost predicate StartsWithRoom(s: seq<Point>, width: int, w: nat, n: nat) {
    forall j :: 0 <= j < |s| ==> (s[j].x + w <= width <==> j < n)
  }

  lemma RoomEndsAt(s: seq<Point>, width: int, w: nat, n: nat)
    requires Ordered(s) && n < |s| && width < s[n].x + w
    requires n > 0 ==> s[n - 1].x + w <= width
    ensures StartsWithRoom(s, width, w, n)
  {
    forall j | 0 <= j < |s| ensures s[j].x + w <= width <==> j < n {
      IndexOrder(s, n, j);
      if n > 0 { IndexOrder(s, n - 1, j); }
    }
  }

  /** Node i is the lowest start among the first n. */
  ghost predicate BestStart(s: seq<Point>, w: nat, n: nat, i: nat, y: int) {
    && i < n <= |s|
    && y == MaxHeight(s, s[i].x, w)
    && (forall j :: 0 <= j < n ==> y <= MaxHeight(s, s[j].x, w))
  }

  ghost predicate LeftmostStart(s: seq<Point>, w: nat, i: nat, y: int) {
    i <= |s| && forall j :: 0 <= j < i ==> y < MaxHeight(s, s[j].x, w)
  }

  /** Best fit prefers the lower row, then the smaller waste, then the position further left. */
  predicate NoWorse(y: int, waste: int, x: int, y': int, waste': int, x': int) {
    y < y' || (y == y' && (waste < waste' || (waste == waste' && x <= x')))
  }

  /** No left-aligned candidate that leaves room is preferred to the one at node i. */
  ghost predicate PreferredStart(s: seq<Point>, w: nat, room: int, n: nat, i: nat, y: int, waste: int) {
    && i < n <= |s| && y <= room && waste == Waste(s, i, s[i].x, w)
    && forall j :: 0 <= j < n && MaxHeight(s, s[j].x, w) <= room ==>
         NoWorse(y, waste, s[i].x, MaxHeight(s, s[j].x, w), Waste(s, j, s[j].x, w), s[j].x)
  }

  ghost predicate NoneFits(s: seq<Point>, w: nat, n: nat, room: int) {
    n <= |s| && forall j :: 0 <= j < n ==> room < MaxHeight(s, s[j].x, w)
  }

  ghost predicate Scanned(s: seq<Point>, mode: Heuristic, w: nat, room: int, n: nat,
                          found: bool, i: nat, y: int, waste: int) {
    if !found then
      y == NONE && (if mode == BottomLeft then n == 0 else NoneFits(s, w, n, room))
    else
      && BestStart(s, w, n, i, y)
      && (mode == BottomLeft ==> LeftmostStart(s, w, i, y))
      && (mode == BestFit ==> PreferredStart(s, w, room, n, i, y, waste))
  }

  /** One of the first n nodes starts where columns [x, x+w) end. */
  ghost predicate EndsAtNode(s: seq<Point>, x: int, w: nat, n: nat) {
    exists t: nat :: t < n && t < |s| && s[t].x == x + w
  }

  /** What best fit considers: spans starting at a node, and spans ending at one of the first n nodes. The latter must
      stay strictly below the target's height. */
  ghost predicate Candidate(s: seq<Point>, width: int, w: nat, room: int, n: nat, k: nat, x: int) {
    && k + 1 < |s| && s[k].x <= x < s[k + 1].x && x + w <= width
    && ((x == s[k].x && MaxHeight(s, x, w) <= room) || (EndsAtNode(s, x, w, n) && MaxHeight(s, x, w) < room))
  }

  /** The candidate at x, inside segment i, is preferred to all others. */
  ghost predicate BestOf(s: seq<Point>, width: int, w: nat, room: int, n: nat, i: nat, x: int, y: int, waste: int) {
    && Candidate(s, width, w, room, n, i, x) && y == MaxHeight(s, x, w) && waste == Waste(s, i, x, w)
    && forall k: nat, c: int {:trigger Candidate(s, width, w, room, n, k, c)} :: Candidate(s, width, w, room, n, k, c) ==>
         NoWorse(y, waste, x, MaxHeight(s, c, w), Waste(s, k, c, w), c)
  }

  /** There is only one such position. */
  lemma BestOfIsUnique(s: seq<Point>, width: int, w: nat, room: int, n: nat, i: nat, x: int, y: int, waste: int,
                       i': nat, x': int, y': int, waste': int)
    requires BestOf(s, width, w, room, n, i, x, y, waste) && BestOf(s, width, w, room, n, i', x', y', waste')
    ensures x == x' && y == y'
  {
  }

  /** The preference spelled out: against every span that starts at a node and leaves room, and against every span that
      ends at a node and stays strictly below the height, the chosen one has the lower row, then the smaller waste, then
      the position further left. */
  lemma BestOfMeans(s: seq<Point>, width: int, w: nat, room: int, i: nat, x: int, y: int, waste: int, k: nat, c: int)
    requires BestOf(s, width, w, room, |s|, i, x, y, waste)
    requires k + 1 < |s| && s[k].x <= c < s[k + 1].x && c + w <= width
    requires (c == s[k].x && MaxHeight(s, c, w) <= room)
             || (MaxHeight(s, c, w) < room && exists e: nat :: e < |s| && s[e].x == c + w)
    ensures var y', waste' := MaxHeight(s, c, w), Waste(s, k, c, w);
            y <= y' && (y == y' ==> waste <= waste') && (y == y' && waste == waste' ==> x <= c)
    ensures y == room ==> x == s[i].x
  {
    hide MaxHeight, Waste;
    assert Candidate(s, width, w, room, |s|, k, c);
  }

  /** No span ends at a node left of column w. */
  lemma EndsSkipped(s: seq<Point>, width: int, w: nat, room: int, n: nat, i: nat, x: int, y: int, waste: int)
    requires IsSkyline(s, width) && n <= |s| && (forall t :: 0 <= t < n ==> s[t].x < w)
    requires BestOf(s, width, w, room, 0, i, x, y, waste)
    ensures BestOf(s, width, w, room, n, i, x, y, waste)
  {
    forall k: nat, c: int {:trigger Candidate(s, width, w, room, n, k, c)} | Candidate(s, width, w, room, n, k, c)
      ensures Candidate(s, width, w, room, 0, k, c)
    {
      IndexOrder(s, 0, k);
    }
  }

  /** The span that ends at node t is weighed against the best one so far. */
  lemma EndTried(s: seq<Point>, width: int, w: nat, room: int, t: nat, t': nat, i: nat, x: int, y: int, waste: int,
                 k: nat, c: int, yHere: int, wasteHere: int)
    requires IsSkyline(s, width) && BestOf(s, width, w, room, t, i, x, y, waste)
    requires t < |s| && t' == t + 1 && c + w == s[t].x <= width && k + 1 < |s| && s[k].x <= c < s[k + 1].x
    requires yHere == MaxHeight(s, c, w) && wasteHere == Waste(s, k, c, w)
    ensures if yHere < room && !NoWorse(y, waste, x, yHere, wasteHere, c)
            then BestOf(s, width, w, room, t', k, c, yHere, wasteHere)
            else BestOf(s, width, w, room, t', i, x, y, waste)
  {
    hide MaxHeight, Waste;
    assert EndsAtNode(s, c, w, t');
    EndsStill(s, x, w, t, t');
    forall k': nat, c': int {:trigger Candidate(s, width, w, room, t', k', c')} | Candidate(s, width, w, room, t', k', c')
      ensures Candidate(s, width, w, room, t, k', c') || (k' == k && c' == c && yHere < room)
    {
      if !Candidate(s, width, w, room, t, k', c') {
        EndsNew(s, c', w, t, t');
        SameSegment(s, k, k', c);
      }
    }
    if yHere < room {
      assert Candidate(s, width, w, room, t', k, c);
    }
  }

  lemma EndsStill(s: seq<Point>, x: int, w: nat, t: nat, t': nat)
    requires t <= t'
    ensures EndsAtNode(s, x, w, t) ==> EndsAtNode(s, x, w, t')
  {
  }

  lemma EndsNew(s: seq<Point>, x: int, w: nat, t: nat, t': nat)
    requires t < |s| && t' == t + 1 && EndsAtNode(s, x, w, t') && !EndsAtNode(s, x, w, t)
    ensures x + w == s[t].x
  {
  }

  lemma SameSegment(s: seq<Point>, k: nat, k': nat, x: int)
    requires Ordered(s) && k + 1 < |s| && k' + 1 < |s| && s[k].x <= x < s[k + 1].x && s[k'].x <= x < s[k' + 1].x
    ensures k == k'
  {
    IndexOrder(s, k, k' + 1);
    IndexOrder(s, k', k + 1);
  }

  /** Where the reported waste is the area between skyline and row: whenever the span starts at a node, or in a segment
      above the ground. */
  lemma WasteIsExact(s: seq<Point>, width: int, k: nat, x0: int, w: nat)
    requires IsSkyline(s, width) && 0 < w && x0 + w <= width && k + 1 < |s| && s[k].x <= x0 < s[k + 1].x
    requires s[k].x == x0 || 0 < s[k].y
    requires forall i :: 0 <= i < |s| ==> s[i].y <= MAXVAL
    ensures Waste(s, k, x0, w) == WastedArea(s, x0, w, MaxHeight(s, x0, w))
  {
    var x1 := x0 + w;
    Context.VisitBounds(s, k, x0, w, x1, true);
    WasteIs(s, k, x0, w, x1, 0, 0, 0);
    WasteFrom(s, width, k, k, x0, w, x1, 0, 0, 0, 0);
  }

  lemma {:induction false} WasteFrom(s: seq<Point>, width: int, k: nat, i: nat, x0: int, w: nat, x1: int, v: nat,
                                     minY: int, waste: int, visited: int)
    requires IsSkyline(s, width) && 0 < w && x1 == x0 + w <= width && k + 1 < |s| && s[k].x <= x0 < s[k + 1].x
    requires (s[k].x == x0 || 0 < s[k].y) && forall j :: 0 <= j < |s| ==> s[j].y <= MAXVAL
    requires Context.Visited(s, k, i, x0, x1, v, minY, waste, visited, true)
    ensures RunningWaste(s, i, x0, w, x1, minY, waste, visited) == WastedArea(s, x0, w, MaxHeight(s, x0, w))
    decreases |s| - i
  {
    hide MaxHeight, WastedArea, HeightAt;
    Context.VisitBounds(s, k, x0, w, x1, true);
    if s[i].x < x1 {
      IndexOrder(s, i, |s| - 1);
      var y, under := s[i].y, s[i + 1].x - s[i].x;
      var used := if under + visited > w then w - visited else under;
      var minY' := if y > minY then y else minY;
      var waste' := if y > minY then waste + visited * (y - minY) else waste + used * (minY - y);
      var visited' := if y > minY then visited + (s[i + 1].x - (if s[i].x < x0 then x0 else s[i].x)) else visited + used;
      var v' := Context.VisitStep(s, k, i, x0, w, x1, v, minY, waste, visited, true, minY', waste', visited');
      WasteFrom(s, width, k, i + 1, x0, w, x1, v', minY', waste', visited');
    }
  }

  // ---------- A span that starts inside a segment on the ground ----------

  /** What `extra` columns of ground, visited besides those of the span, add to the waste from segment i on. As many
      columns are left out again at the right end: each was charged from the ground up to the row, and then omitted in a
      segment of height y, so that y remains; or the whole row, if none was omitted for it. */
  function Overcharge(s: seq<Point>, i: nat, x1: int, minY: int, extra: int): int
    decreases |s| - i
  {
    if i + 1 >= |s| || x1 <= s[i].x then extra * minY
    else if s[i].y > minY then Overcharge(s, i + 1, x1, s[i].y, extra)
    else
      var kept := Least(extra, Max(x1 - s[i + 1].x, 0));
      (extra - kept) * s[i].y + Overcharge(s, i + 1, x1, minY, kept)
  }

  function Least(a: int, b: int): int {
    if a < b then a else b
  }

  lemma RiseSum(v: int, extra: int, minY: int, y: int)
    ensures (v + extra) * (y - minY) - v * (y - minY) == extra * y - extra * minY
  {
    assert (v + extra) * (y - minY) == v * (y - minY) + extra * (y - minY);
    assert extra * (y - minY) == extra * y - extra * minY;
  }

  lemma FallSum(step: int, extra: int, kept: int, minY: int, y: int)
    ensures (step + kept - extra) * (minY - y) - step * (minY - y)
            == kept * minY - extra * minY + (extra - kept) * y
  {
    assert (step + kept - extra) * (minY - y) == step * (minY - y) + (kept - extra) * (minY - y);
    assert (kept - extra) * (minY - y) == (kept - extra) * minY - (kept - extra) * y;
  }

  /** One node of the search, with its charge. */
  lemma ExtraStep(s: seq<Point>, i: nat, x0: int, w: nat, x1: int, minY: int, waste: int, v: nat, extra: int,
                  kept: int, used: int, minY': int, waste': int, under: int)
    requires i + 1 < |s| && s[i].x < x1 && x0 <= s[i].x && under == s[i + 1].x - s[i].x && x1 == x0 + w && v == s[i].x - x0
    requires kept == if s[i].y > minY then extra else Least(extra, Max(x1 - s[i + 1].x, 0))
    requires 0 <= extra && 0 < under && used == Least(under, w - v) + kept - extra
    requires if s[i].y > minY then minY' == s[i].y && waste' == waste + (v + extra) * (s[i].y - minY)
             else minY' == minY && waste' == waste + used * (minY - s[i].y)
    ensures RunningWaste(s, i, x0, w, x1, minY, waste, v + extra) ==
              RunningWaste(s, i + 1, x0, w, x1, minY', waste', v + extra + (if s[i].y > minY then under else used))
    ensures Overcharge(s, i, x1, minY, extra) ==
              Overcharge(s, i + 1, x1, minY', kept) + (if s[i].y > minY then 0 else (extra - kept) * s[i].y)
  {
    var visited := v + extra;
    assert s[i].y <= minY ==> used == if under + visited > w then w - visited else under;
  }

  lemma ExtraEnd(s: seq<Point>, i: nat, x0: int, w: nat, x1: int, minY: int, waste: int, visited: int, extra: int)
    requires i < |s| && x1 <= s[i].x
    ensures RunningWaste(s, i, x0, w, x1, minY, waste, visited) == waste
    ensures Overcharge(s, i, x1, minY, extra) == extra * minY
  {
  }

  /** The search from node i on, when v columns of the span and `extra` others have been visited. */
  lemma {:induction false} WasteWithExtra(s: seq<Point>, width: int, k: nat, i: nat, x0: int, w: nat, x1: int, v: nat,
                                          minY: int, waste: int, extra: int)
    requires IsSkyline(s, width) && 0 < w && x1 == x0 + w <= width && k + 1 < |s| && s[k].x <= x0 < s[k + 1].x
    requires k < i && forall j :: 0 <= j < |s| ==> s[j].y <= MAXVAL
    requires 0 <= extra && Context.Visited(s, k, i, x0, x1, v, minY, 0, 0, false) && s[i].x < x1
    ensures RunningWaste(s, i, x0, w, x1, minY, waste, v + extra) ==
              waste + WastedArea(s, x0, w, MaxHeight(s, x0, w)) - WastedArea(s, x0, v, minY)
              + Overcharge(s, i, x1, minY, extra) - extra * minY
    decreases |s| - i
  {
    hide MaxHeight, WastedArea, HeightAt, RunningWaste, Overcharge;
    Context.VisitBounds(s, k, x0, w, x1, false);
    IndexOrder(s, i, |s| - 1);
    IndexOrder(s, i, i + 1);
    var y, under := s[i].y, s[i + 1].x - s[i].x;
    var step: nat := Least(under, w - v);
    Context.StepAcross(s, i, x0, v, step, minY);
    var v', kept := v + step, if y > minY then extra else Least(extra, Max(x1 - s[i + 1].x, 0));
    var used := step + kept - extra;
    var minY' := if y > minY then y else minY;
    var waste' := if y > minY then waste + (v + extra) * (y - minY) else waste + used * (minY - y);
    ExtraStep(s, i, x0, w, x1, minY, waste, v, extra, kept, used, minY', waste', under);
    RiseSum(v, extra, minY, y);
    FallSum(step, extra, kept, minY, y);
    VisitedOn(s, k, i, x0, w, x1, v, minY, v', minY');
    if s[i + 1].x < x1 {
      WasteWithExtra(s, width, k, i + 1, x0, w, x1, v', minY', waste', kept);
    } else {
      ExtraEnd(s, i + 1, x0, w, x1, minY', waste', v + extra + (if y > minY then under else used), kept);
    }
  }

  lemma VisitedOn(s: seq<Point>, k: nat, i: nat, x0: int, w: nat, x1: int, v: nat, minY: int, v': nat, minY': int)
    requires Ordered(s) && x1 == x0 + w && Context.Visited(s, k, i, x0, x1, v, minY, 0, 0, false)
    requires i + 1 < |s| && s[i].x < x1 && 0 <= s[i].y <= MAXVAL && (i == k ==> x0 < s[i + 1].x)
    requires v' == Least(s[i + 1].x, x1) - x0 && minY' == Max(minY, s[i].y)
    ensures Context.Visited(s, k, i + 1, x0, x1, v', minY', 0, 0, false)
  {
    hide MaxHeight, WastedArea, HeightAt;
    IndexOrder(s, i, i + 1);
    var step: nat := v' - v;
    Context.StepAcross(s, i, x0, v, step, minY);
  }

  /** How far the reported waste is off for a span that starts inside a segment on the ground: by nothing if it also ends
      there, and otherwise by the charge for the columns left of the span, or for those right of the segment if they
      are fewer. */
  lemma GroundWaste(s: seq<Point>, width: int, k: nat, x0: int, w: nat)
    requires IsSkyline(s, width) && 0 < w && x0 + w <= width && k + 1 < |s| && s[k].x < x0 < s[k + 1].x && s[k].y == 0
    requires forall j :: 0 <= j < |s| ==> s[j].y <= MAXVAL
    ensures var x1, m := x0 + w, MaxHeight(s, x0, w);
            var extra := Least(x0 - s[k].x, x1 - s[k + 1].x);
            if x1 <= s[k + 1].x then Waste(s, k, x0, w) == WastedArea(s, x0, w, m)
            else
              && Waste(s, k, x0, w) == WastedArea(s, x0, w, m) + Overcharge(s, k + 1, x1, 0, extra)
              && 0 <= Overcharge(s, k + 1, x1, 0, extra) <= extra * m
  {
    hide MaxHeight, WastedArea, HeightAt, RunningWaste, Overcharge, Waste;
    var x1 := x0 + w;
    Context.VisitBounds(s, k, x0, w, x1, false);
    var v: nat := Least(s[k + 1].x, x1) - x0;
    NoColumns(s, x0);
    Context.StepAcross(s, k, x0, 0, v, 0);
    var extra := Least(x0 - s[k].x, x1 - s[k + 1].x);
    VisitedOn(s, k, k, x0, w, x1, 0, 0, v, 0);
    var used := Least(s[k + 1].x - s[k].x, w);
    GroundStep(s, k, x0, w, x1, used);
    if x1 <= s[k + 1].x {
      ExtraEnd(s, k + 1, x0, w, x1, 0, 0, used, 0);
    } else {
      WasteWithExtra(s, width, k, k + 1, x0, w, x1, v, 0, 0, extra);
      HeightsBelow(s, width, k + 1, x0, w);
      OverchargeBounds(s, k + 1, x1, 0, extra, MaxHeight(s, x0, w));
    }
  }

  lemma GroundStep(s: seq<Point>, k: nat, x0: int, w: nat, x1: int, used: int)
    requires k + 1 < |s| && s[k].x < x0 < s[k + 1].x && s[k].y == 0 && 0 < w && x1 == x0 + w
    requires used == Least(s[k + 1].x - s[k].x, w)
    ensures Waste(s, k, x0, w) == RunningWaste(s, k + 1, x0, w, x1, 0, 0, used)
  {
  }

  lemma NoColumns(s: seq<Point>, x0: int)
    ensures MaxHeight(s, x0, 0) == 0 && WastedArea(s, x0, 0, 0) == 0
  {
  }

  lemma HeightsBelow(s: seq<Point>, width: int, i: nat, x0: int, w: nat)
    requires IsSkyline(s, width) && i < |s| && x0 < s[i].x && x0 + w <= width
    ensures 0 <= MaxHeight(s, x0, w)
    ensures forall j :: i <= j < |s| && s[j].x < x0 + w ==> 0 <= s[j].y <= MaxHeight(s, x0, w)
  {
    hide HeightAt, MaxHeight;
    MaxHeightBounds(s, x0, w);
    forall j | i <= j < |s| && s[j].x < x0 + w ensures 0 <= s[j].y <= MaxHeight(s, x0, w) {
      IndexOrder(s, i, j);
      IndexOrder(s, j, |s| - 1);
      IndexOrder(s, j, j + 1);
      HeightInSegment(s, j, s[j].x);
    }
  }

  lemma {:induction false} OverchargeBounds(s: seq<Point>, i: nat, x1: int, minY: int, extra: int, m: int)
    requires Ordered(s) && 0 <= minY <= m && 0 <= extra
    requires forall j :: i <= j < |s| && s[j].x < x1 ==> 0 <= s[j].y <= m
    ensures 0 <= Overcharge(s, i, x1, minY, extra) <= extra * m
    decreases |s| - i
  {
    if i + 1 >= |s| || x1 <= s[i].x {
      ProductOrder(extra, minY, m);
    } else if s[i].y > minY {
      OverchargeBounds(s, i + 1, x1, s[i].y, extra, m);
    } else {
      var kept := Least(extra, Max(x1 - s[i + 1].x, 0));
      OverchargeBounds(s, i + 1, x1, minY, kept, m);
      ProductOrder(extra - kept, s[i].y, m);
      assert (extra - kept) * m == extra * m - kept * m;
    }
  }

  lemma ProductOrder(a: int, b: int, c: int)
    requires 0 <= a && 0 <= b <= c
    ensures 0 <= a * b <= a * c
  {
    assert 0 <= a * (c - b);
  }

  /** Columns [x, x+w) start in segment i and can carry something resting at row y. */
  ghost predicate Supports(s: seq<Point>, width: int, w: nat, i: nat, x: int, y: int) {
    && i + 1 < |s| && s[i].x <= x < s[i + 1].x
    && x + w <= width && y == MaxHeight(s, x, w)
  }

  /** Over every integer position, w columns cannot rest at or below row `room`. */
  ghost predicate NothingFits(s: seq<Point>, width: int, w: nat, room: int) {
    forall c {:trigger MaxHeight(s, c, w)} :: 0 <= c && c + w <= width ==> room < MaxHeight(s, c, w)
  }

  /** The preferred candidate rests on a lowest row over every integer position. */
  lemma BestIsLowest(s: seq<Point>, width: int, w: nat, room: int, i: nat, x: int, y: int, waste: int)
    requires IsSkyline(s, width) && 0 < w && BestOf(s, width, w, room, |s|, i, x, y, waste)
    ensures Supports(s, width, w, i, x, y) && LowestOver(s, width, w, y) && y <= room
  {
    forall c {:trigger MaxHeight(s, c, w)} | 0 <= c && c + w <= width ensures y <= MaxHeight(s, c, w) {
      var j := SlideLeft(s, width, c, w);
      assert MaxHeight(s, s[j].x, w) <= room ==> Candidate(s, width, w, room, |s|, j, s[j].x);
    }
  }

  /** The position touches a node, with its left or with its right end. */
  ghost predicate Flush(s: seq<Point>, i: nat, x: int, w: nat) {
    i < |s| && (x == s[i].x || EndsAtNode(s, x, w, |s|))
  }

  /** A result that names a lowest position, or none, and whose height test is decisive. */
  ghost predicate Found(s: seq<Point>, width: int, mode: Heuristic, r: FindResult, i: nat, span: nat, room: int) {
    && ((r.link == Missing || room < r.y) <==> NothingFits(s, width, span, room))
    && (r.link != Missing ==>
          Supports(s, width, span, i, r.x, r.y) && ChosenSpot(s, width, span, mode, room, i, r.x, r.y))
  }

  /** What packing one rectangle does to the skyline and to the list of placed boxes: without a free node, or
      when no integer position fits, nothing; otherwise the box goes to the position its heuristic chooses. The skyline
      rises to the top of the box over its columns and nowhere else, for bottom-left and whenever the width is a multiple
      of the alignment. */
  ghost predicate Packed(s: seq<Point>, t: seq<Point>, width: int, mode: Heuristic, w: int, h: int, span: nat,
                         room: int, hadFree: bool, r: FindResult, i: nat, before: seq<Box>, after: seq<Box>) {
    && (r.link == Missing <==> !hadFree || NothingFits(s, width, span, room))
    && (r.link == Missing ==> t == s && after == before)
    && (r.link != Missing ==>
          && ChosenSpot(s, width, span, mode, room, i, r.x, r.y)
          && after == before + [Box(r.x, r.y, w, h)]
          && Raised(s, t, width, i, Box(r.x, r.y, w, h))
          && (mode == BottomLeft || span == w ==> PointUpdate(s, t, width, r.x, w, r.y + h)))
  }

  /** A position flush with a node raises exactly the columns of the box: if it touches with its left end, or if the
      width needed no rounding. */
  lemma FlushUpdate(s: seq<Point>, t: seq<Point>, width: int, i: nat, x: int, w: nat, span: nat, top: int)
    requires CanRaise(s, width, i, x, w) && 0 <= top && t == Raise(s, i, x, w, top) && Flush(s, i, x, span)
    requires x == s[i].x || span == w
    ensures PointUpdate(s, t, width, x, w, top)
  {
    RaiseHeights(s, width, i, x, w, top);
    if x != s[i].x {
      var e: nat :| e < |s| && s[e].x == x + span;
      IndexOrder(s, i, e);
      IndexOrder(s, e, i + 1);
    }
  }

  lemma PackedUpdate(s: seq<Point>, t: seq<Point>, width: int, mode: Heuristic, w: int, h: int, span: nat, room: int,
                     hadFree: bool, r: FindResult, i: nat, before: seq<Box>, after: seq<Box>)
    requires 0 < w && Packed(s, t, width, mode, w, h, span, room, hadFree, r, i, before, after)
    ensures r.link != Missing && (mode == BottomLeft || span == w) ==> PointUpdate(s, t, width, r.x, w, r.y + h)
  {
  }

  lemma DecideOutcome(s: seq<Point>, width: int, mode: Heuristic, w: int, h: int, span: nat, room: int,
                      r: FindResult, i: nat, before: seq<Box>)
    requires 0 < h && Found(s, width, mode, r, i, span, room)
    ensures r.link == Missing || room < r.y ==>
              Packed(s, s, width, mode, w, h, span, room, true, r.(link := Missing), i, before, before)
    ensures Packed(s, s, width, mode, w, h, span, room, false, r.(link := Missing), i, before, before)
    ensures r.link != Missing && r.y <= room ==>
              forall t, after :: after == before + [Box(r.x, r.y, w, h)] && Raised(s, t, width, i, Box(r.x, r.y, w, h)) ==>
                Packed(s, t, width, mode, w, h, span, room, true, r, i, before, after)
  {
    hide ChosenSpot, NothingFits, Supports, PointUpdate, Raise, CanRaise;
    if r.link != Missing && r.y <= room {
      var top := r.y + h;
      forall t | Raised(s, t, width, i, Box(r.x, r.y, w, h)) && (mode == BottomLeft || span == w)
        ensures PointUpdate(s, t, width, r.x, w, r.y + h)
      {
        SpotUpdate(s, t, width, mode, room, i, r.x, r.y, w, span, top);
      }
    }
  }

  lemma SpotUpdate(s: seq<Point>, t: seq<Point>, width: int, mode: Heuristic, room: int, i: nat, x: int, y: int, w: nat,
                   span: nat, top: int)
    requires ChosenSpot(s, width, span, mode, room, i, x, y) && y < top && (mode == BottomLeft || span == w)
    requires CanRaise(s, width, i, x, w) && t == Raise(s, i, x, w, top)
    ensures PointUpdate(s, t, width, x, w, top)
  {
    MaxHeightBounds(s, x, span);
    FlushUpdate(s, t, width, i, x, w, span, top);
  }

  /** What did not fit does not fit later either. */
  lemma NothingFitsLater(s: seq<Point>, t: seq<Point>, width: int, w: nat, room: int)
    requires Rises(s, t, width) && NothingFits(s, width, w, room)
    ensures NothingFits(t, width, w, room)
  {
    forall c {:trigger MaxHeight(t, c, w)} | 0 <= c && c + w <= width ensures room < MaxHeight(t, c, w) {
      MaxHeightRises(s, t, width, c, w);
      assert room < MaxHeight(s, c, w);
    }
  }

  lemma PackedRises(s: seq<Point>, t: seq<Point>, width: int, mode: Heuristic, w: int, h: int, span: nat, room: int,
                    hadFree: bool, r: FindResult, i: nat, before: seq<Box>, after: seq<Box>)
    requires 0 < w <= span && 0 < h && Packed(s, t, width, mode, w, h, span, room, hadFree, r, i, before, after)
    ensures Rises(s, t, width)
  {
    if r.link != Missing {
      RaiseRises(s, width, i, Box(r.x, r.y, w, h), span);
    }
  }

  /** t is s after putting box b on segment i. */
  ghost predicate Raised(s: seq<Point>, t: seq<Point>, width: int, i: nat, b: Box) {
    0 < b.w && CanRaise(s, width, i, b.x, b.w) && t == Raise(s, i, b.x, b.w, b.y + b.h)
  }

  lemma CanPlace(s: seq<Point>, width: int, i: nat, x: int, y: int, w: nat, span: nat)
    requires IsSkyline(s, width) && 0 < w <= span && Supports(s, width, span, i, x, y)
    ensures 0 <= x && 0 <= y && CanRaise(s, width, i, x, w)
  {
    MaxHeightBounds(s, x, span);
    IndexOrder(s, 0, i);
    assert MaxHeight(s, x, span) == y;
  }

  lemma AfterPlacing(s: seq<Point>, t: seq<Point>, placed: seq<Box>, width: int, height: int, i: nat, b: Box,
                     x: int, w: nat, span: nat, top: int)
    requires IsPacking(s, placed, width, height) && b.x == x && b.w == w
    requires 0 < w <= span && 0 < b.h && CanRaise(s, width, i, x, w)
    requires b.y == MaxHeight(s, x, span) && top == b.y + b.h <= height
    requires t == Raise(s, i, x, w, top)
    ensures IsSkyline(t, width) && IsPacking(t, placed + [b], width, height)
    ensures Raised(s, t, width, i, b)
  {
    PlaceKeepsPacking(s, placed, width, height, i, b, span, top);
  }

  /** A lowest position over every integer x. For bottom-left it is also the leftmost of them and starts at a node; for
      best fit it is the preferred one among the spans that start or end at a node. */
  ghost predicate ChosenSpot(s: seq<Point>, width: int, w: nat, mode: Heuristic, room: int, i: nat, x: int, y: int) {
    && 0 <= x && x + w <= width && y == MaxHeight(s, x, w)
    && LowestOver(s, width, w, y) && Flush(s, i, x, w)
    && (mode == BottomLeft ==> LeftmostLowest(s, width, w, x, y) && x == s[i].x)
    && (mode == BestFit ==> BestOf(s, width, w, room, |s|, i, x, y, Waste(s, i, x, w)))
  }

  /** The test against the target's height decides whether anything fits at all. */
  lemma PlacementDecision(s: seq<Point>, width: int, w: nat, room: int, i: nat, r: FindResult)
    requires IsSkyline(s, width) && 0 < w
    requires r.link == Missing ==> width < w || NothingFits(s, width, w, room)
    requires r.link != Missing ==> Supports(s, width, w, i, r.x, r.y) && LowestOver(s, width, w, r.y)
    ensures (r.link == Missing || room < r.y) <==> NothingFits(s, width, w, room)
    ensures r.link != Missing ==> 0 <= r.x && 0 <= r.y
  {
    if r.link != Missing {
      MaxHeightBounds(s, r.x, w);
      IndexOrder(s, 0, i);
      assert MaxHeight(s, r.x, w) == r.y;
    }
  }

  /** What a finished left-aligned scan says about every integer position. */
  lemma ScanResult(s: seq<Point>, mode: Heuristic, width: int, w: nat, room: int, n: nat,
                   found: bool, i: nat, y: int, waste: int)
    requires IsSkyline(s, width) && 0 < w && n < |s| && StartsWithRoom(s, width, w, n)
    requires Scanned(s, mode, w, room, n, found, i, y, waste)
    ensures found ==> Supports(s, width, w, i, s[i].x, y) && LowestOver(s, width, w, y)
    ensures found && mode == BottomLeft ==> LeftmostLowest(s, width, w, s[i].x, y)
    ensures found && mode == BestFit ==> BestOf(s, width, w, room, 0, i, s[i].x, y, waste)
    ensures !found ==> if mode == BottomLeft then width < w else NothingFits(s, width, w, room)
  {
    if found {
      IndexOrder(s, i, i + 1);
      if mode == BottomLeft {
        NodeStartsSuffice(s, width, w, i);
      }
    }
    forall c {:trigger MaxHeight(s, c, w)} | 0 <= c && c + w <= width
      ensures found ==> y <= MaxHeight(s, c, w)
      ensures !found && mode == BestFit ==> room < MaxHeight(s, c, w)
    {
      var j := SlideLeft(s, width, c, w);
    }
  }

  lemma ScanBegins(s: seq<Point>, mode: Heuristic, w: nat, room: int)
    ensures Scanned(s, mode, w, room, 0, false, 0, NONE, NONE)
  {
  }

  lemma ScanStep(s: seq<Point>, mode: Heuristic, w: nat, room: int, n: nat,
                 found: bool, i: nat, y: int, waste: int, yHere: int, wasteHere: int)
    requires Ordered(s) && n < |s| && Scanned(s, mode, w, room, n, found, i, y, waste)
    requires yHere == MaxHeight(s, s[n].x, w) && 0 <= yHere <= MAXVAL
    requires wasteHere == Waste(s, n, s[n].x, w)
    ensures mode == BottomLeft ==>
              if yHere < y then Scanned(s, mode, w, room, n + 1, true, n, yHere, waste)
              else Scanned(s, mode, w, room, n + 1, found, i, y, waste)
    ensures mode == BestFit ==>
              if yHere <= room && (yHere < y || (yHere == y && wasteHere < waste))
              then Scanned(s, mode, w, room, n + 1, true, n, yHere, wasteHere)
              else Scanned(s, mode, w, room, n + 1, found, i, y, waste)
  {
  }

  // ---------- A run in which a rounded width raises more than the box ----------

  lemma HighestIs(s: seq<Point>, x: int, w: nat, y: int, c: int)
    requires 0 <= y && x <= c < x + w && HeightAt(s, c) == y
    requires forall d :: x <= d < x + w ==> HeightAt(s, d) <= y
    ensures MaxHeight(s, x, w) == y
  {
    MaxHeightBounds(s, x, w);
    MaxHeightLeast(s, x, w, y);
  }

  /** One step of the running sum. */
  lemma WasteStep(s: seq<Point>, i: nat, x0: int, w: int, x1: int, minY: int, waste: int, visited: int)
    requires i + 1 < |s| && s[i].x < x1
    ensures RunningWaste(s, i, x0, w, x1, minY, waste, visited) ==
              if s[i].y > minY then
                RunningWaste(s, i + 1, x0, w, x1, s[i].y, waste + visited * (s[i].y - minY),
                             visited + (s[i + 1].x - (if s[i].x < x0 then x0 else s[i].x)))
              else
                var under := s[i + 1].x - s[i].x;
                var used := if under + visited > w then w - visited else under;
                RunningWaste(s, i + 1, x0, w, x1, minY, waste + used * (minY - s[i].y), visited + used)
  {
  }

  /** The empty target of width 11: a span of 8 columns wastes nothing, wherever it lies. */
  lemma FirstWaste(s: seq<Point>, x: int)
    requires s == [Point(0, 0), Point(11, MAXVAL)] && 0 <= x <= 3
    ensures Waste(s, 0, x, 8) == 0 && MaxHeight(s, x, 8) == 0
  {
    WasteStep(s, 0, x, 8, x + 8, 0, 0, 0);
    forall c | 0 <= c < 11 ensures HeightAt(s, c) == 0 {
      HeightInSegment(s, 0, c);
    }
    HighestIs(s, x, 8, 0, x);
  }

  /** A 7x2 rectangle goes to its left end. */
  lemma FirstBox(s: seq<Point>)
    requires s == [Point(0, 0), Point(11, MAXVAL)]
    ensures BestOf(s, 11, 8, 7, 2, 0, 0, 0, 0) && !NothingFits(s, 11, 8, 7)
    ensures Raise(s, 0, 0, 7, 2) == [Point(0, 2), Point(7, 0), Point(11, MAXVAL)]
  {
    FirstWaste(s, 0);
    forall k: nat, c: int {:trigger Candidate(s, 11, 8, 7, 2, k, c)} | Candidate(s, 11, 8, 7, 2, k, c)
      ensures NoWorse(0, 0, 0, MaxHeight(s, c, 8), Waste(s, k, c, 8), c)
    {
      FirstWaste(s, c);
    }
    assert StopAt(s, 0, 7) == 0;
  }

  /** Then 2x4, which the alignment widens to 4 columns: only the right end of the target is at height 0. */
  lemma SecondWaste(s: seq<Point>)
    requires s == [Point(0, 2), Point(7, 0), Point(11, MAXVAL)]
    ensures Waste(s, 1, 7, 4) == 0 && MaxHeight(s, 7, 4) == 0
    ensures forall c :: 0 <= c < 7 ==> 2 <= MaxHeight(s, c, 4)
  {
    WasteStep(s, 1, 7, 4, 11, 0, 0, 0);
    forall c | 7 <= c < 11 ensures HeightAt(s, c) == 0 {
      HeightInSegment(s, 1, c);
    }
    HighestIs(s, 7, 4, 0, 7);
    forall c | 0 <= c < 7 ensures 2 <= MaxHeight(s, c, 4) {
      HeightInSegment(s, 0, c);
      MaxHeightBounds(s, c, 4);
      assert HeightAt(s, c) == 2;
    }
  }

  lemma SecondBox(s: seq<Point>)
    requires s == [Point(0, 2), Point(7, 0), Point(11, MAXVAL)]
    ensures BestOf(s, 11, 4, 5, 3, 1, 7, 0, 0) && !NothingFits(s, 11, 4, 5)
    ensures Raise(s, 1, 7, 2, 4) == [Point(0, 2), Point(7, 4), Point(9, 0), Point(11, MAXVAL)]
  {
    SecondWaste(s);
    assert Candidate(s, 11, 4, 5, 3, 1, 7);
    forall k: nat, c: int {:trigger Candidate(s, 11, 4, 5, 3, k, c)} | Candidate(s, 11, 4, 5, 3, k, c)
      ensures NoWorse(0, 0, 7, MaxHeight(s, c, 4), Waste(s, k, c, 4), c)
    {
      assert k == 0 || (k == 1 && c == 7);
    }
    assert StopAt(s, 1, 9) == 1;
  }

  /** The three spans of 8 columns that best fit weighs for 5x4. */
  lemma ThirdWaste(s: seq<Point>)
    requires s == [Point(0, 2), Point(7, 4), Point(9, 0), Point(11, MAXVAL)]
    ensures Waste(s, 0, 0, 8) == 14 && Waste(s, 0, 1, 8) == 12 && Waste(s, 0, 3, 8) == 16
  {
    WasteStep(s, 0, 0, 8, 8, 0, 0, 0);
    WasteStep(s, 1, 0, 8, 8, 2, 0, 7);
    WasteStep(s, 0, 1, 8, 9, 0, 0, 0);
    WasteStep(s, 1, 1, 8, 9, 2, 0, 6);
    WasteStep(s, 0, 3, 8, 11, 0, 0, 0);
    WasteStep(s, 1, 3, 8, 11, 2, 0, 4);
    WasteStep(s, 2, 3, 8, 11, 4, 8, 6);
  }

  lemma ThirdHeight(s: seq<Point>, x: int)
    requires s == [Point(0, 2), Point(7, 4), Point(9, 0), Point(11, MAXVAL)] && 0 <= x <= 3
    ensures MaxHeight(s, x, 8) == 4
  {
    forall c | 0 <= c < 11 ensures HeightAt(s, c) <= 4 && (c == 7 ==> HeightAt(s, c) == 4) {
      HeightInSegment(s, if c < 7 then 0 else if c < 9 then 1 else 2, c);
    }
    HighestIs(s, x, 8, 4, 7);
  }

  /** The span ending where the gap begins wastes least, and the 5 columns of the box end inside the first segment. */
  lemma ThirdBox(s: seq<Point>)
    requires s == [Point(0, 2), Point(7, 4), Point(9, 0), Point(11, MAXVAL)]
    ensures BestOf(s, 11, 8, 5, 4, 0, 1, 4, 12) && !NothingFits(s, 11, 8, 5)
    ensures Raise(s, 0, 1, 5, 8) == [Point(0, 2), Point(1, 8), Point(7, 4), Point(9, 0), Point(11, MAXVAL)]
  {
    ThirdWaste(s);
    ThirdHeight(s, 1);
    assert 1 + 8 == s[2].x;
    assert Candidate(s, 11, 8, 5, 4, 0, 1);
    forall k: nat, c: int {:trigger Candidate(s, 11, 8, 5, 4, k, c)} | Candidate(s, 11, 8, 5, 4, k, c)
      ensures NoWorse(4, 12, 1, MaxHeight(s, c, 8), Waste(s, k, c, 8), c)
    {
      ThirdHeight(s, c);
      assert k == 0 && (c == 0 || c == 1 || c == 3);
    }
    assert StopAt(s, 1, 6) == 1;
  }

  /** One more rectangle at the position that best fit is known to prefer. */
  method PutNext(c: Context, w: int, h: int, ghost s: seq<Point>, ghost t: seq<Point>, ghost span: nat, ghost room: int,
                 ghost i: nat, ghost x: int, ghost y: int, ghost waste: int)
    requires c.Valid() && c.Skyline() == s && c.heuristic == BestFit && c.free != []
    requires 0 < w && 0 < h && c.Span(w) == span <= c.width && room == c.height - h
    requires BestOf(s, c.width, span, room, |s|, i, x, y, waste) && !NothingFits(s, c.width, span, room)
    requires t == Raise(s, i, x, w, y + h)
    modifies c`activeHead, c`freeHead, c`active, c`free, c`placed, c.pool
    ensures c.Valid() && c.Skyline() == t && c.placed == old(c.placed) + [Box(x, y, w, h)]
  {
    hide Packed, BestOf, NothingFits, Raise, Partition, Linked, IsPacking;
    ghost var before, width := c.placed, c.width;
    var r;
    ghost var i', span';
    r, i', span' := c.PackRectangle(w, h, s, room);
    Forced(s, c.Skyline(), width, w, h, span, room, r, i', before, c.placed, i, x, y, waste);
  }

  /** With room, a free node and a preferred position there is only one outcome. */
  lemma Forced(s: seq<Point>, t: seq<Point>, width: int, w: int, h: int, span: nat, room: int, r: FindResult, i': nat,
               before: seq<Box>, after: seq<Box>, i: nat, x: int, y: int, waste: int)
    requires 0 < w && Packed(s, t, width, BestFit, w, h, span, room, true, r, i', before, after)
    requires IsSkyline(s, width) && !NothingFits(s, width, span, room) && BestOf(s, width, span, room, |s|, i, x, y, waste)
    ensures t == Raise(s, i, x, w, y + h) && after == before + [Box(x, y, w, h)]
  {
    hide MaxHeight, Waste, Raise, LowestOver, LeftmostLowest, PointUpdate, NothingFits;
    PickedOnly(s, width, span, room, i, x, y, waste);
    assert BestOf(s, width, span, room, |s|, i', r.x, r.y, Waste(s, i', r.x, span));
  }

  /** Only one segment and position are preferred. */
  lemma PickedOnly(s: seq<Point>, width: int, span: nat, room: int, i: nat, x: int, y: int, waste: int)
    requires Ordered(s) && BestOf(s, width, span, room, |s|, i, x, y, waste)
    ensures forall i': nat, x', y', waste' :: BestOf(s, width, span, room, |s|, i', x', y', waste') ==>
              i' == i && x' == x && y' == y
  {
    hide MaxHeight, Waste;
    forall i': nat, x', y', waste' | BestOf(s, width, span, room, |s|, i', x', y', waste')
      ensures i' == i && x' == x && y' == y
    {
      BestOfIsUnique(s, width, span, room, |s|, i, x, y, waste, i', x', y', waste');
      SameSegment(s, i, i', x);
    }
  }

  /** The choices are forced, so this is what happens: the third rectangle lands on the columns [1, 6), and column 6
      rises with it. */
  method RoundedWidthRaisesMore(c: Context, nodes: array<Node>)
    requires nodes.Length == 3 && Distinct(nodes[..3]) && c.extra0 != c.extra1
    requires c.extra0 !in nodes[..3] && c.extra1 !in nodes[..3]
    modifies c, c.extra0, c.extra1, nodes[..3]
    ensures c.Valid() && c.placed == [Box(0, 0, 7, 2), Box(7, 0, 2, 4), Box(1, 4, 5, 4)]
    ensures HeightAt(c.Skyline(), 6) == 8
  {
    hide Linked, Distinct, Partition, IsSkyline, IsPacking, Context.ListsOk, Context.Laid, Points, HeightAt;
    c.InitTarget(11, 9, nodes, 3);
    c.SetupHeuristic(BestFit);
    PutThree(c);
  }

  method PutThree(c: Context)
    requires c.Valid() && c.Skyline() == [Point(0, 0), Point(11, MAXVAL)] && c.placed == []
    requires c.width == 11 && c.height == 9 && c.align == 4 && c.numNodes == 3 && c.heuristic == BestFit
    modifies c`activeHead, c`freeHead, c`active, c`free, c`placed, c.pool
    ensures c.Valid() && c.placed == [Box(0, 0, 7, 2), Box(7, 0, 2, 4), Box(1, 4, 5, 4)]
    ensures HeightAt(c.Skyline(), 6) == 8
  {
    hide BestOf, NothingFits, Raise, Partition, Linked, IsSkyline, IsPacking, HeightAt;
    ghost var s0 := [Point(0, 0), Point(11, MAXVAL)];
    ghost var s1 := [Point(0, 2), Point(7, 0), Point(11, MAXVAL)];
    ghost var s2 := [Point(0, 2), Point(7, 4), Point(9, 0), Point(11, MAXVAL)];
    ghost var s3 := [Point(0, 2), Point(1, 8), Point(7, 4), Point(9, 0), Point(11, MAXVAL)];
    FirstBox(s0);
    PutNext(c, 7, 2, s0, s1, 8, 7, 0, 0, 0, 0);
    SecondBox(s1);
    PutNext(c, 2, 4, s1, s2, 4, 5, 1, 7, 0, 0);
    ThirdBox(s2);
    PutNext(c, 5, 4, s2, s3, 8, 5, 0, 1, 4, 12);
    LastHeight(s3);
  }

  lemma LastHeight(s: seq<Point>)
    requires s == [Point(0, 2), Point(1, 8), Point(7, 4), Point(9, 0), Point(11, MAXVAL)]
    ensures HeightAt(s, 6) == 8
  {
    assert s[1..] == [Point(1, 8), Point(7, 4), Point(9, 0), Point(11, MAXVAL)];
  }
}
