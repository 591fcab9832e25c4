/**
 * Grid geometry and the placement searches of the layout engine
 * (src/utils/gridUtils.js). Items are integer rectangles on a grid `cols`
 * cells wide with no height limit.
 */
module GridUtils {
  import opened Wrappers
  import opened Seqs

  datatype Rect = Rect(x: int, y: int, w: int, h: int)

  datatype Pos = Pos(x: int, y: int)

  /** A layout entry `{id, x, y, w, h}`. */
  datatype Item = Item(id: string, x: int, y: int, w: int, h: int) {
    function Box(): Rect {
      Rect(x, y, w, h)
    }
  }

  type Layout = seq<Item>

  /** The item test of `find`/`findIndex` by id. */
  function HasId(id: string): Item -> bool {
    (it: Item) => it.id == id
  }

  /** No two entries share an id (every caller keeps ids unique). */
  predicate UniqueIds(layout: Layout) {
    forall i, j :: 0 <= i < |layout| && 0 <= j < |layout| && i != j ==> layout[i].id != layout[j].id
  }

  function Abs(n: int): (r: nat)
    ensures r == n || r == -n
  {
    if n < 0 then -n else n
  }

  function Max(a: int, b: int): (r: int)
    ensures r >= a && r >= b && (r == a || r == b)
  {
    if a < b then b else a
  }

  // ---------------------------------------------------------------------
  // isOverlapping, getOccupiedCells
  // ---------------------------------------------------------------------

  /** `isOverlapping`: the half-open extents intersect on both axes. */
  predicate Overlaps(a: Rect, b: Rect) {
    a.x < b.x + b.w && a.x + a.w > b.x && a.y < b.y + b.h && a.y + a.h > b.y
  }

  lemma {:induction false} OverlapsSymmetric(a: Rect, b: Rect)
    ensures Overlaps(a, b) <==> Overlaps(b, a)
  {
  }

  /** Rectangles that only share an edge do not overlap. */
  lemma {:induction false} EdgeContactIsNoOverlap(a: Rect, b: Rect)
    requires a.x + a.w == b.x || a.y + a.h == b.y
    ensures !Overlaps(a, b) && !Overlaps(b, a)
  {
  }

  /** Cell `c` lies inside `r`. */
  predicate Covers(r: Rect, c: Pos) {
    r.x <= c.x < r.x + r.w && r.y <= c.y < r.y + r.h
  }

  /** For non-empty rectangles, overlapping means sharing a cell. */
  lemma {:induction false} OverlapsIffSharedCell(a: Rect, b: Rect)
    requires a.w >= 1 && a.h >= 1 && b.w >= 1 && b.h >= 1
    ensures Overlaps(a, b) <==> exists c :: Covers(a, c) && Covers(b, c)
  {
    if Overlaps(a, b) {
      var c := Pos(Max(a.x, b.x), Max(a.y, b.y));
      assert Covers(a, c) && Covers(b, c);
    }
  }

  /** The set `getOccupiedCells` builds: every cell covered by some item. */
  function CellsOf(layout: Layout): set<Pos> {
    if layout == [] then {}
    else CellsOf(layout[..|layout| - 1]) + CellsOfItem(layout[|layout| - 1])
  }

  function CellsOfItem(it: Item): set<Pos> {
    set x, y | it.x <= x < it.x + it.w && it.y <= y < it.y + it.h :: Pos(x, y)
  }

  /** A cell is occupied exactly when some item covers it. */
  lemma {:induction false} CellsOfIff(layout: Layout, c: Pos)
    ensures c in CellsOf(layout) <==> exists i :: 0 <= i < |layout| && Covers(layout[i].Box(), c)
  {
    if layout != [] {
      var front := layout[..|layout| - 1];
      CellsOfIff(front, c);
      assert c in CellsOfItem(layout[|layout| - 1]) <==> Covers(layout[|layout| - 1].Box(), c);
      if exists i :: 0 <= i < |layout| && Covers(layout[i].Box(), c) {
        var i :| 0 <= i < |layout| && Covers(layout[i].Box(), c);
        if i < |layout| - 1 {
          assert front[i] == layout[i];
        }
      }
      if exists i :: 0 <= i < |front| && Covers(front[i].Box(), c) {
        var i :| 0 <= i < |front| && Covers(front[i].Box(), c);
        assert layout[i] == front[i];
      }
    }
  }

  /** `getOccupiedCells`: nested loops adding every covered cell of every item. */
  method OccupiedCells(layout: Layout) returns (occupied: set<Pos>)
    ensures occupied == CellsOf(layout)
  {
    occupied := {};
    for i := 0 to |layout|
      invariant occupied == CellsOf(layout[..i])
    {
      var it := layout[i];
      ghost var before := occupied;
      var y := it.y;
      while y < it.y + it.h
        invariant forall c :: c in occupied <==>
          c in before || (it.x <= c.x < it.x + it.w && it.y <= c.y < y && c.y < it.y + it.h)
        decreases it.y + it.h - y
      {
        var x := it.x;
        while x < it.x + it.w
          invariant forall c :: c in occupied <==>
            c in before || (it.x <= c.x < it.x + it.w && it.y <= c.y < y && c.y < it.y + it.h)
            || (c.y == y && it.x <= c.x < x && c.x < it.x + it.w)
          decreases it.x + it.w - x
        {
          occupied := occupied + {Pos(x, y)};
          x := x + 1;
        }
        y := y + 1;
      }
      assert layout[..i + 1][..i] == layout[..i];
      assert occupied == CellsOf(layout[..i]) + CellsOfItem(it);
    }
    assert layout[..|layout|] == layout;
  }

  // ---------------------------------------------------------------------
  // canPlaceAt, findOverlappingItems
  // ---------------------------------------------------------------------

  predicate InBounds(r: Rect, cols: int) {
    !(r.x < 0 || r.y < 0 || r.x + r.w > cols)
  }

  /** No item other than `excludeId` overlaps `r` (the loop of `canPlaceAt`). */
  predicate Clear(layout: Layout, r: Rect, excludeId: string) {
    layout == [] || ((layout[0].id == excludeId || !Overlaps(r, layout[0].Box())) && Clear(layout[1..], r, excludeId))
  }

  /** `canPlaceAt`: inside the columns and clear of every item not named `excludeId`. */
  predicate CanPlace(layout: Layout, r: Rect, excludeId: string, cols: int) {
    InBounds(r, cols) && Clear(layout, r, excludeId)
  }

  lemma {:induction false} ClearIff(layout: Layout, r: Rect, excludeId: string)
    ensures Clear(layout, r, excludeId) <==>
      forall i :: 0 <= i < |layout| && layout[i].id != excludeId ==> !Overlaps(r, layout[i].Box())
  {
    if layout != [] {
      ClearIff(layout[1..], r, excludeId);
      assert forall i :: 1 <= i < |layout| ==> layout[i] == layout[1..][i - 1];
    }
  }

  /** `canPlaceAt` is false out of bounds, and otherwise true exactly when no other item overlaps. */
  lemma {:induction false} CanPlaceMeans(layout: Layout, r: Rect, excludeId: string, cols: int)
    ensures CanPlace(layout, r, excludeId, cols) <==>
      InBounds(r, cols) && forall i :: 0 <= i < |layout| && layout[i].id != excludeId ==> !Overlaps(r, layout[i].Box())
  {
    ClearIff(layout, r, excludeId);
  }

  method CanPlaceAt(x: int, y: int, w: int, h: int, layout: Layout, excludeId: string, cols: int)
    returns (ok: bool)
    ensures ok == CanPlace(layout, Rect(x, y, w, h), excludeId, cols)
  {
    if x < 0 || y < 0 || x + w > cols {
      return false;
    }
    var newRect := Rect(x, y, w, h);
    ClearIff(layout, newRect, excludeId);
    for i := 0 to |layout|
      invariant forall k :: 0 <= k < i && layout[k].id != excludeId ==> !Overlaps(newRect, layout[k].Box())
    {
      if layout[i].id == excludeId {
        continue;
      }
      if Overlaps(newRect, layout[i].Box()) {
        return false;
      }
    }
    return true;
  }

  /** The item test `findOverlappingItems` applies. */
  function Hits(r: Rect, excludeId: string): Item -> bool {
    (it: Item) => it.id != excludeId && Overlaps(r, it.Box())
  }

  /** The items other than `excludeId` overlapping `r`, in layout order. */
  function Overlapping(r: Rect, layout: Layout, excludeId: string): seq<Item> {
    Filter(layout, Hits(r, excludeId))
  }

  lemma {:induction false} OverlappingMembers(r: Rect, layout: Layout, excludeId: string)
    ensures forall it :: it in Overlapping(r, layout, excludeId) <==>
      it in layout && it.id != excludeId && Overlaps(r, it.Box())
  {
    var o := Overlapping(r, layout, excludeId);
    forall it | it in layout && it.id != excludeId && Overlaps(r, it.Box())
      ensures it in o
    {
      var i :| 0 <= i < |layout| && layout[i] == it;
      assert Hits(r, excludeId)(layout[i]);
    }
    forall it | it in o
      ensures it in layout && it.id != excludeId && Overlaps(r, it.Box())
    {
      var i :| 0 <= i < |o| && o[i] == it;
      assert Hits(r, excludeId)(o[i]);
    }
  }

  /** `canPlaceAt` holds exactly when the rectangle is in bounds and overlaps nothing else. */
  lemma {:induction false} CanPlaceIff(layout: Layout, r: Rect, excludeId: string, cols: int)
    ensures CanPlace(layout, r, excludeId, cols) <==> InBounds(r, cols) && Overlapping(r, layout, excludeId) == []
  {
    CanPlaceMeans(layout, r, excludeId, cols);
    OverlappingMembers(r, layout, excludeId);
    var o := Overlapping(r, layout, excludeId);
    if o != [] {
      assert o[0] in o;
    }
    if InBounds(r, cols) && o == [] {
      forall i | 0 <= i < |layout| && layout[i].id != excludeId
        ensures !Overlaps(r, layout[i].Box())
      {
        assert layout[i] in layout;
      }
    }
  }

  /** One more item of the layout examined by `findOverlappingItems`. */
  lemma {:induction false} OverlappingStep(r: Rect, layout: Layout, excludeId: string, i: int)
    requires 0 <= i < |layout|
    ensures Filter(layout[..i + 1], Hits(r, excludeId)) ==
      if layout[i].id != excludeId && Overlaps(r, layout[i].Box())
      then Filter(layout[..i], Hits(r, excludeId)) + [layout[i]]
      else Filter(layout[..i], Hits(r, excludeId))
  {
    assert layout[..i + 1] == layout[..i] + [layout[i]];
    FilterSnoc(layout[..i], layout[i], Hits(r, excludeId));
  }

  method FindOverlappingItems(x: int, y: int, w: int, h: int, layout: Layout, excludeId: string)
    returns (overlapping: seq<Item>)
    ensures overlapping == Overlapping(Rect(x, y, w, h), layout, excludeId)
  {
    var newRect := Rect(x, y, w, h);
    ghost var hits := Hits(newRect, excludeId);
    overlapping := [];
    for i := 0 to |layout|
      invariant overlapping == Filter(layout[..i], hits)
    {
      var item := layout[i];
      OverlappingStep(newRect, layout, excludeId, i);
      if item.id == excludeId {
        continue;
      }
      if Overlaps(newRect, item.Box()) {
        overlapping := overlapping + [item];
      }
    }
    assert layout[..|layout|] == layout;
  }

  /** `manhattanDistance`. */
  function ManhattanDistance(x1: int, y1: int, x2: int, y2: int): (r: nat)
    ensures r == 0 <==> x1 == x2 && y1 == y2
  {
    Abs(x1 - x2) + Abs(y1 - y2)
  }

  /** The distance does not depend on which end it is measured from. */
  lemma {:induction false} ManhattanSymmetric(x1: int, y1: int, x2: int, y2: int)
    ensures ManhattanDistance(x1, y1, x2, y2) == ManhattanDistance(x2, y2, x1, y1)
  {
  }

  lemma {:induction false} ManhattanTriangle(x1: int, y1: int, x2: int, y2: int, x3: int, y3: int)
    ensures ManhattanDistance(x1, y1, x3, y3) <= ManhattanDistance(x1, y1, x2, y2) + ManhattanDistance(x2, y2, x3, y3)
  {
  }

  // ---------------------------------------------------------------------
  // findNearestEmptyPosition: the enumeration it scans
  // ---------------------------------------------------------------------

  /** `maxDistance` of the ring search. */
  const MaxDistance: int := 20

  /** The positions x0, x0+1, ..., x1 on row y. */
  function Run(x0: int, x1: int, y: int): (r: seq<Pos>)
    ensures |r| == if x1 < x0 then 0 else x1 - x0 + 1
    ensures forall i :: 0 <= i < |r| ==> r[i] == Pos(x0 + i, y)
    decreases x1 - x0
  {
    if x1 < x0 then [] else [Pos(x0, y)] + Run(x0 + 1, x1, y)
  }

  /** Chebyshev distance of `p` from the anchor. */
  function Cheb(ax: int, ay: int, p: Pos): nat {
    Max(Abs(p.x - ax), Abs(p.y - ay))
  }

  /** Row-major order: earlier row, or same row and further left. */
  predicate LexBefore(q: Pos, p: Pos) {
    q.y < p.y || (q.y == p.y && q.x < p.x)
  }

  /** The ring order: nearer ring first, then row-major within a ring. */
  predicate RingBefore(ax: int, ay: int, q: Pos, p: Pos) {
    Cheb(ax, ay, q) < Cheb(ax, ay, p) || (Cheb(ax, ay, q) == Cheb(ax, ay, p) && LexBefore(q, p))
  }

  predicate SortedLex(s: seq<Pos>) {
    forall i, j :: 0 <= i < j < |s| ==> LexBefore(s[i], s[j])
  }

  predicate SortedRing(ax: int, ay: int, s: seq<Pos>) {
    forall i, j :: 0 <= i < j < |s| ==> RingBefore(ax, ay, s[i], s[j])
  }

  /**
   * What the inner `dx` loop visits on row `y` of ring `d` around the anchor
   * `(ax, ay)`, from column `x` on: only cells on the ring's border are tested.
   * (Rows and columns are absolute so that no argument here is a literal.)
   */
  function RingRowFrom(ax: int, ay: int, d: int, y: int, x: int): seq<Pos>
    decreases ax + d - x
  {
    if x > ax + d then []
    else
      (if Abs(x - ax) == d || Abs(y - ay) == d then [Pos(x, y)] else [])
      + RingRowFrom(ax, ay, d, y, x + 1)
  }

  /** The rows `y..ay+d` of ring `d`, each scanned left to right. */
  function RingRows(ax: int, ay: int, d: int, y: int): seq<Pos>
    decreases ay + d - y
  {
    if y > ay + d then [] else RingRowFrom(ax, ay, d, y, ax - d) + RingRows(ax, ay, d, y + 1)
  }

  /** The rings `d..MaxDistance` around the anchor, nearest first. */
  function Rings(ax: int, ay: int, d: int): seq<Pos>
    decreases MaxDistance - d
  {
    if d > MaxDistance then [] else RingRows(ax, ay, d, ay - d) + Rings(ax, ay, d + 1)
  }

  /** A row of a ring holds its border cells from column `x` rightwards. */
  lemma {:induction false} RingRowFromMembers(ax: int, ay: int, d: int, y: int, x: int)
    ensures forall q :: q in RingRowFrom(ax, ay, d, y, x) <==>
      q.y == y && x <= q.x <= ax + d && (Abs(q.x - ax) == d || Abs(y - ay) == d)
    decreases ax + d - x
  {
    if x <= ax + d {
      RingRowFromMembers(ax, ay, d, y, x + 1);
    }
  }

  /** ... scanned left to right. */
  lemma {:induction false} RingRowFromSorted(ax: int, ay: int, d: int, y: int, x: int)
    ensures SortedLex(RingRowFrom(ax, ay, d, y, x))
    decreases ax + d - x
  {
    if x <= ax + d {
      RingRowFromMembers(ax, ay, d, y, x + 1);
      RingRowFromSorted(ax, ay, d, y, x + 1);
    }
  }

  /** The rows from `y` on of ring `d` hold exactly the ring's cells from row `y` down. */
  lemma {:induction false} RingRowsMembers(ax: int, ay: int, d: int, y: int)
    requires ay - d <= y
    ensures forall q :: q in RingRows(ax, ay, d, y) <==> y <= q.y && Cheb(ax, ay, q) == d
    decreases ay + d - y
  {
    if y <= ay + d {
      RingRowFromMembers(ax, ay, d, y, ax - d);
      RingRowsMembers(ax, ay, d, y + 1);
    }
  }

  /** ... in row-major order. */
  lemma {:induction false} RingRowsSorted(ax: int, ay: int, d: int, y: int)
    requires ay - d <= y
    ensures SortedLex(RingRows(ax, ay, d, y))
    decreases ay + d - y
  {
    if y <= ay + d {
      var row := RingRowFrom(ax, ay, d, y, ax - d);
      var rest := RingRows(ax, ay, d, y + 1);
      RingRowFromMembers(ax, ay, d, y, ax - d);
      RingRowFromSorted(ax, ay, d, y, ax - d);
      RingRowsMembers(ax, ay, d, y + 1);
      RingRowsSorted(ax, ay, d, y + 1);
      forall i, j | 0 <= i < j < |row + rest| ensures LexBefore((row + rest)[i], (row + rest)[j]) {
        if j < |row| {
          assert (row + rest)[i] == row[i] && (row + rest)[j] == row[j];
        } else if i < |row| {
          assert (row + rest)[i] == row[i] && row[i] in row;
          assert (row + rest)[j] == rest[j - |row|] && rest[j - |row|] in rest;
        } else {
          assert (row + rest)[i] == rest[i - |row|] && (row + rest)[j] == rest[j - |row|];
        }
      }
    }
  }

  /** The rings `d..20` hold exactly the cells at Chebyshev distance `d..20`. */
  lemma {:induction false} RingsMembers(ax: int, ay: int, d: int)
    requires d >= 0
    ensures forall q :: q in Rings(ax, ay, d) <==> d <= Cheb(ax, ay, q) <= MaxDistance
    decreases MaxDistance - d
  {
    if d <= MaxDistance {
      RingRowsMembers(ax, ay, d, ay - d);
      RingsMembers(ax, ay, d + 1);
    }
  }

  lemma {:induction false} InRingRows(ax: int, ay: int, d: int, q: Pos)
    requires q in RingRows(ax, ay, d, ay - d)
    ensures Cheb(ax, ay, q) == d
  {
    RingRowsMembers(ax, ay, d, ay - d);
  }

  lemma {:induction false} InRings(ax: int, ay: int, d: int, q: Pos)
    requires d >= 0 && q in Rings(ax, ay, d)
    ensures d <= Cheb(ax, ay, q) <= MaxDistance
  {
    RingsMembers(ax, ay, d);
  }

  /** Two ring-sorted runs, every cell of the first before every cell of the second, concatenate sorted. */
  lemma {:induction false} SortedRingConcat(ax: int, ay: int, s: seq<Pos>, t: seq<Pos>)
    requires SortedRing(ax, ay, s) && SortedRing(ax, ay, t)
    requires forall i, j :: 0 <= i < |s| && 0 <= j < |t| ==> RingBefore(ax, ay, s[i], t[j])
    ensures SortedRing(ax, ay, s + t)
  {
    forall i, j | 0 <= i < j < |s + t| ensures RingBefore(ax, ay, (s + t)[i], (s + t)[j]) {
      if j < |s| {
        assert (s + t)[i] == s[i] && (s + t)[j] == s[j];
      } else if i < |s| {
        assert (s + t)[i] == s[i] && (s + t)[j] == t[j - |s|];
      } else {
        assert (s + t)[i] == t[i - |s|] && (s + t)[j] == t[j - |s|];
      }
    }
  }

  /** Within one ring the ring order is row-major order. */
  lemma {:induction false} SameRingLex(ax: int, ay: int, p: Pos, q: Pos)
    requires Cheb(ax, ay, p) == Cheb(ax, ay, q) && LexBefore(p, q)
    ensures RingBefore(ax, ay, p, q)
  {
  }

  /** One ring, row-major and all at distance `d`, is ring-sorted. */
  lemma {:induction false} RingRowsRingSorted(ax: int, ay: int, d: int)
    ensures SortedRing(ax, ay, RingRows(ax, ay, d, ay - d))
  {
    var ring := RingRows(ax, ay, d, ay - d);
    RingRowsSorted(ax, ay, d, ay - d);
    forall i, j | 0 <= i < j < |ring| ensures RingBefore(ax, ay, ring[i], ring[j]) {
      var p, q := ring[i], ring[j];
      assert LexBefore(p, q);
      InRingRows(ax, ay, d, p);
      InRingRows(ax, ay, d, q);
      SameRingLex(ax, ay, p, q);
    }
  }

  /** ... nearest ring first, row-major within a ring. */
  lemma {:induction false} RingsSorted(ax: int, ay: int, d: int)
    requires d >= 0
    ensures SortedRing(ax, ay, Rings(ax, ay, d))
    decreases MaxDistance - d
  {
    if d <= MaxDistance {
      var ring := RingRows(ax, ay, d, ay - d);
      var rest := Rings(ax, ay, d + 1);
      RingRowsRingSorted(ax, ay, d);
      RingsSorted(ax, ay, d + 1);
      forall i, j | 0 <= i < |ring| && 0 <= j < |rest| ensures RingBefore(ax, ay, ring[i], rest[j]) {
        InRingRows(ax, ay, d, ring[i]);
        InRings(ax, ay, d + 1, rest[j]);
      }
      SortedRingConcat(ax, ay, ring, rest);
    }
  }

  /**
   * Over the rings from `d` on, the search finds the fit that every earlier
   * cell in ring order misses. (Stated for any `d`: instantiating these ring
   * facts at a literal distance makes the solver unfold all twenty rings.)
   */
  lemma {:induction false} RingsFirst(ax: int, ay: int, d: int, f: Pos -> bool, p: Pos)
    requires 0 <= d <= Cheb(ax, ay, p) <= MaxDistance && f(p)
    requires forall q :: d <= Cheb(ax, ay, q) && RingBefore(ax, ay, q, p) ==> !f(q)
    ensures Find(Rings(ax, ay, d), f) == Some(p)
  {
    var rings := Rings(ax, ay, d);
    RingsMembers(ax, ay, d);
    RingsSorted(ax, ay, d);
    FindInOrder(rings, f, (q, p') => RingBefore(ax, ay, q, p'), p);
  }

  /** Over the rings from `d` on, the search fails when no cell at distance `d..20` fits. */
  lemma {:induction false} RingsNone(ax: int, ay: int, d: int, f: Pos -> bool)
    requires d >= 0
    requires forall q :: d <= Cheb(ax, ay, q) <= MaxDistance ==> !f(q)
    ensures Find(Rings(ax, ay, d), f) == None
  {
    var rings := Rings(ax, ay, d);
    RingsMembers(ax, ay, d);
    assert forall i :: 0 <= i < |rings| ==> rings[i] in rings;
    FindIndexIs(rings, f, -1);
  }

  /** A cell the rings from `d >= 1` yield fits and is at distance `d..20`, so it is not the anchor. */
  lemma {:induction false} RingsFound(ax: int, ay: int, d: int, f: Pos -> bool)
    requires d >= 1
    ensures var r := Find(Rings(ax, ay, d), f);
      r.Some? ==> f(r.value) && d <= Cheb(ax, ay, r.value) <= MaxDistance && r.value != Pos(ax, ay)
  {
    RingsMembers(ax, ay, d);
    FindFacts(Rings(ax, ay, d), f);
  }

  /** The placement test of the search for a `w`×`h` block. */
  predicate FitsAt(layout: Layout, w: int, h: int, excludeId: string, cols: int, p: Pos) {
    CanPlace(layout, Rect(p.x, p.y, w, h), excludeId, cols)
  }

  function Fits(layout: Layout, w: int, h: int, excludeId: string, cols: int): Pos -> bool {
    (p: Pos) => FitsAt(layout, w, h, excludeId, cols, p)
  }

  /**
   * The three search phases: the same row to the right of the anchor, then
   * the start of the next row, then the rings; the first fit wins.
   */
  function Search(ax: int, ay: int, w: int, cols: int, f: Pos -> bool): Option<Pos> {
    Or(Find(Run(ax + 1, cols - w, ay), f),
       if f(Pos(0, ay + 1)) then Some(Pos(0, ay + 1)) else Find(Rings(ax, ay, 1), f))
  }

  /** `Math.max(...layout.map(item => item.y + item.h), 0)`. */
  function MaxBottom(layout: Layout): (r: int)
    ensures r >= 0
    ensures forall i :: 0 <= i < |layout| ==> layout[i].y + layout[i].h <= r
    ensures r == 0 || exists i :: 0 <= i < |layout| && layout[i].y + layout[i].h == r
  {
    if layout == [] then 0
    else
      var rest := MaxBottom(layout[1..]);
      assert forall i :: 1 <= i < |layout| ==> layout[i] == layout[1..][i - 1];
      Max(layout[0].y + layout[0].h, rest)
  }

  /** `findNearestEmptyPosition`: the first fit in the search order, or a row below everything. */
  function NearestEmpty(ax: int, ay: int, w: int, h: int, layout: Layout, excludeId: string, cols: int): Pos {
    match Search(ax, ay, w, cols, Fits(layout, w, h, excludeId, cols))
    case Some(p) => p
    case None => Pos(0, MaxBottom(layout) + 1)
  }

  // ---------------------------------------------------------------------
  // findNearestEmptyPosition: what the search returns, declaratively
  // ---------------------------------------------------------------------

  lemma {:induction false} FindRunFirst(x0: int, x1: int, y: int, f: Pos -> bool, x: int)
    requires x0 <= x <= x1 && f(Pos(x, y))
    requires forall x' :: x0 <= x' < x ==> !f(Pos(x', y))
    ensures Find(Run(x0, x1, y), f) == Some(Pos(x, y))
  {
    var run := Run(x0, x1, y);
    forall i | 0 <= i < x - x0 ensures !f(run[i]) {
      assert run[i] == Pos(x0 + i, y);
    }
    FindIndexIs(run, f, x - x0);
  }

  lemma {:induction false} FindRunNone(x0: int, x1: int, y: int, f: Pos -> bool)
    requires forall x :: x0 <= x <= x1 ==> !f(Pos(x, y))
    ensures Find(Run(x0, x1, y), f) == None
  {
    var run := Run(x0, x1, y);
    forall i | 0 <= i < |run| ensures !f(run[i]) {
      assert run[i] == Pos(x0 + i, y);
    }
    FindIndexIs(run, f, -1);
  }

  /** Phase one: the leftmost fit to the right of the anchor on its own row. */
  lemma {:induction false} NearestEmptyRowPhase(ax: int, ay: int, w: int, h: int, layout: Layout, excludeId: string, cols: int, x: int)
    requires ax + 1 <= x <= cols - w && FitsAt(layout, w, h, excludeId, cols, Pos(x, ay))
    requires forall x' :: ax + 1 <= x' < x ==> !FitsAt(layout, w, h, excludeId, cols, Pos(x', ay))
    ensures NearestEmpty(ax, ay, w, h, layout, excludeId, cols) == Pos(x, ay)
  {
    var f := Fits(layout, w, h, excludeId, cols);
    FindRunFirst(ax + 1, cols - w, ay, f, x);
  }

  /** The row phase and the next-row phase both fail. */
  predicate FirstPhasesFail(ax: int, ay: int, w: int, h: int, layout: Layout, excludeId: string, cols: int) {
    (forall x :: ax + 1 <= x <= cols - w ==> !FitsAt(layout, w, h, excludeId, cols, Pos(x, ay)))
    && !FitsAt(layout, w, h, excludeId, cols, Pos(0, ay + 1))
  }

  /** Phase two: the start of the next row, when nothing on the anchor's row fits. */
  lemma {:induction false} NearestEmptyNextRowPhase(ax: int, ay: int, w: int, h: int, layout: Layout, excludeId: string, cols: int)
    requires forall x :: ax + 1 <= x <= cols - w ==> !FitsAt(layout, w, h, excludeId, cols, Pos(x, ay))
    requires FitsAt(layout, w, h, excludeId, cols, Pos(0, ay + 1))
    ensures NearestEmpty(ax, ay, w, h, layout, excludeId, cols) == Pos(0, ay + 1)
  {
    var f := Fits(layout, w, h, excludeId, cols);
    FindRunNone(ax + 1, cols - w, ay, f);
  }

  lemma {:induction false} NearestEmptyAfterFirstPhases(ax: int, ay: int, w: int, h: int, layout: Layout, excludeId: string, cols: int)
    requires FirstPhasesFail(ax, ay, w, h, layout, excludeId, cols)
    ensures Search(ax, ay, w, cols, Fits(layout, w, h, excludeId, cols))
         == Find(Rings(ax, ay, 1), Fits(layout, w, h, excludeId, cols))
  {
    var f := Fits(layout, w, h, excludeId, cols);
    FindRunNone(ax + 1, cols - w, ay, f);
  }

  /** Phase three: the first fit on the rings 1..20, in ring order. */
  lemma {:induction false} NearestEmptyRingPhase(ax: int, ay: int, w: int, h: int, layout: Layout, excludeId: string, cols: int, p: Pos)
    requires FirstPhasesFail(ax, ay, w, h, layout, excludeId, cols)
    requires 1 <= Cheb(ax, ay, p) <= MaxDistance && FitsAt(layout, w, h, excludeId, cols, p)
    requires forall q :: 1 <= Cheb(ax, ay, q) && RingBefore(ax, ay, q, p) ==> !FitsAt(layout, w, h, excludeId, cols, q)
    ensures NearestEmpty(ax, ay, w, h, layout, excludeId, cols) == p
  {
    var f := Fits(layout, w, h, excludeId, cols);
    NearestEmptyAfterFirstPhases(ax, ay, w, h, layout, excludeId, cols);
    RingsFirst(ax, ay, 1, f, p);
  }

  lemma {:induction false} NearestEmptyUnfold(ax: int, ay: int, w: int, h: int, layout: Layout, excludeId: string, cols: int)
    ensures var r := Search(ax, ay, w, cols, Fits(layout, w, h, excludeId, cols));
      NearestEmpty(ax, ay, w, h, layout, excludeId, cols) == if r.Some? then r.value else Pos(0, MaxBottom(layout) + 1)
  {
  }

  /** Fallback: nothing in the search fits, so the item goes one row below everything. */
  lemma {:induction false} NearestEmptyFallback(ax: int, ay: int, w: int, h: int, layout: Layout, excludeId: string, cols: int)
    requires FirstPhasesFail(ax, ay, w, h, layout, excludeId, cols)
    requires forall q :: 1 <= Cheb(ax, ay, q) <= MaxDistance ==> !FitsAt(layout, w, h, excludeId, cols, q)
    ensures NearestEmpty(ax, ay, w, h, layout, excludeId, cols) == Pos(0, MaxBottom(layout) + 1)
  {
    var f := Fits(layout, w, h, excludeId, cols);
    NearestEmptyAfterFirstPhases(ax, ay, w, h, layout, excludeId, cols);
    assert forall q :: 1 <= Cheb(ax, ay, q) <= MaxDistance ==> !f(q);
    RingsNone(ax, ay, 1, f);
    NearestEmptyUnfold(ax, ay, w, h, layout, excludeId, cols);
  }

  /** A position the search phases return fits, and is never the anchor itself. */
  lemma {:induction false} SearchSkipsAnchor(ax: int, ay: int, w: int, cols: int, f: Pos -> bool)
    ensures var r := Search(ax, ay, w, cols, f); r.Some? ==> f(r.value) && r.value != Pos(ax, ay)
  {
    RingsFound(ax, ay, 1, f);
    var run := Run(ax + 1, cols - w, ay);
    FindFacts(run, f);
    assert forall i :: 0 <= i < |run| ==> run[i].x > ax;
  }

  /**
   * The result either came from the search, in which case it fits and is
   * not the anchor, or it is the fallback row below every item.
   */
  lemma {:induction false} NearestEmptyFitsOrFallback(ax: int, ay: int, w: int, h: int, layout: Layout, excludeId: string, cols: int)
    ensures var r := NearestEmpty(ax, ay, w, h, layout, excludeId, cols);
      (FitsAt(layout, w, h, excludeId, cols, r) && r != Pos(ax, ay)) || r == Pos(0, MaxBottom(layout) + 1)
  {
    SearchSkipsAnchor(ax, ay, w, cols, Fits(layout, w, h, excludeId, cols));
    NearestEmptyUnfold(ax, ay, w, h, layout, excludeId, cols);
  }

  /** Whichever branch produced it, the result overlaps no item other than `excludeId`. */
  lemma {:induction false} NearestEmptyIsClear(ax: int, ay: int, w: int, h: int, layout: Layout, excludeId: string, cols: int)
    ensures var r := NearestEmpty(ax, ay, w, h, layout, excludeId, cols);
      forall i :: 0 <= i < |layout| && layout[i].id != excludeId ==> !Overlaps(Rect(r.x, r.y, w, h), layout[i].Box())
  {
    var r := NearestEmpty(ax, ay, w, h, layout, excludeId, cols);
    NearestEmptyFitsOrFallback(ax, ay, w, h, layout, excludeId, cols);
    CanPlaceMeans(layout, Rect(r.x, r.y, w, h), excludeId, cols);
  }

  // ---------------------------------------------------------------------
  // findNearestEmptyPosition: the loops
  // ---------------------------------------------------------------------

  lemma {:induction false} RingsStep(ax: int, ay: int, d: int, f: Pos -> bool)
    requires d <= MaxDistance
    ensures Find(Rings(ax, ay, d), f) == Or(Find(RingRows(ax, ay, d, ay - d), f), Find(Rings(ax, ay, d + 1), f))
  {
    FindConcat(RingRows(ax, ay, d, ay - d), Rings(ax, ay, d + 1), f);
  }

  lemma {:induction false} RingRowsStep(ax: int, ay: int, d: int, y: int, f: Pos -> bool)
    requires y <= ay + d
    ensures Find(RingRows(ax, ay, d, y), f) == Or(Find(RingRowFrom(ax, ay, d, y, ax - d), f), Find(RingRows(ax, ay, d, y + 1), f))
  {
    FindConcat(RingRowFrom(ax, ay, d, y, ax - d), RingRows(ax, ay, d, y + 1), f);
  }

  /** One row of ring `d` scanned: either it holds the first fit of the remaining rows, or they start one row lower. */
  lemma {:induction false} RingRowsAdvance(ax: int, ay: int, d: int, dy: int, f: Pos -> bool, found: Option<Pos>)
    requires dy <= d
    requires found == Find(RingRowFrom(ax, ay, d, ay + dy, ax - d), f)
    ensures found.Some? ==> Find(RingRows(ax, ay, d, ay + dy), f) == found
    ensures found.None? ==> Find(RingRows(ax, ay, d, ay + dy), f) == Find(RingRows(ax, ay, d, ay + (dy + 1)), f)
  {
    RingRowsStep(ax, ay, d, ay + dy, f);
    assert ay + dy + 1 == ay + (dy + 1);
  }

  /** Past the bottom row of ring `d` nothing is left to find. */
  lemma {:induction false} RingRowsPast(ax: int, ay: int, d: int, dy: int, f: Pos -> bool)
    requires dy > d
    ensures Find(RingRows(ax, ay, d, ay + dy), f) == None
  {
    assert RingRows(ax, ay, d, ay + dy) == [];
    FindIndexIs([], f, -1);
  }

  /** One cell of a ring row scanned: `hit` says whether it is a border cell that fits. */
  lemma {:induction false} RingRowAdvance(ax: int, ay: int, d: int, dy: int, dx: int, f: Pos -> bool, hit: bool)
    requires dx <= d
    requires hit == ((Abs(dx) == d || Abs(dy) == d) && f(Pos(ax + dx, ay + dy)))
    ensures hit ==> Find(RingRowFrom(ax, ay, d, ay + dy, ax + dx), f) == Some(Pos(ax + dx, ay + dy))
    ensures !hit ==> Find(RingRowFrom(ax, ay, d, ay + dy, ax + dx), f) == Find(RingRowFrom(ax, ay, d, ay + dy, ax + (dx + 1)), f)
  {
    RingRowStep(ax, ay, d, ay + dy, ax + dx, f);
    assert (ax + dx) - ax == dx && (ay + dy) - ay == dy;
  }

  lemma {:induction false} RingRowStep(ax: int, ay: int, d: int, y: int, x: int, f: Pos -> bool)
    requires x <= ax + d
    ensures Find(RingRowFrom(ax, ay, d, y, x), f) ==
      if (Abs(x - ax) == d || Abs(y - ay) == d) && f(Pos(x, y)) then Some(Pos(x, y))
      else Find(RingRowFrom(ax, ay, d, y, x + 1), f)
  {
    var rest := RingRowFrom(ax, ay, d, y, x + 1);
    if Abs(x - ax) == d || Abs(y - ay) == d {
      FindCons(Pos(x, y), rest, f);
    } else {
      assert [] + rest == rest;
    }
  }

  lemma {:induction false} RunStep(x0: int, x1: int, y: int, f: Pos -> bool)
    requires x0 <= x1
    ensures Find(Run(x0, x1, y), f) == if f(Pos(x0, y)) then Some(Pos(x0, y)) else Find(Run(x0 + 1, x1, y), f)
  {
    FindCons(Pos(x0, y), Run(x0 + 1, x1, y), f);
  }

  /** One column of the row scanned: `ok` says whether the candidate fits. */
  lemma {:induction false} RunAdvance(x0: int, x1: int, y: int, f: Pos -> bool, ok: bool)
    requires x0 <= x1 && ok == f(Pos(x0, y))
    ensures ok ==> Find(Run(x0, x1, y), f) == Some(Pos(x0, y))
    ensures !ok ==> Find(Run(x0, x1, y), f) == Find(Run(x0 + 1, x1, y), f)
  {
    RunStep(x0, x1, y, f);
  }

  /** Past the end of the row nothing is left to find. */
  lemma {:induction false} RunPast(x0: int, x1: int, y: int, f: Pos -> bool)
    requires x1 < x0
    ensures Find(Run(x0, x1, y), f) == None
  {
    assert Run(x0, x1, y) == [];
    FindIndexIs([], f, -1);
  }

  /** Applying the fit test is `CanPlace` at that position. */
  lemma {:induction false} FitsApply(layout: Layout, w: int, h: int, excludeId: string, cols: int, x: int, y: int)
    ensures Fits(layout, w, h, excludeId, cols)(Pos(x, y)) == CanPlace(layout, Rect(x, y, w, h), excludeId, cols)
  {
  }

  /** One column of the anchor's row scanned with `canPlaceAt`'s answer `ok`. */
  lemma {:induction false} ScanRowStep(layout: Layout, w: int, h: int, excludeId: string, cols: int, x: int, x1: int, y: int, ok: bool)
    requires x <= x1 && ok == CanPlace(layout, Rect(x, y, w, h), excludeId, cols)
    ensures ok ==> Find(Run(x, x1, y), Fits(layout, w, h, excludeId, cols)) == Some(Pos(x, y))
    ensures !ok ==> Find(Run(x, x1, y), Fits(layout, w, h, excludeId, cols)) == Find(Run(x + 1, x1, y), Fits(layout, w, h, excludeId, cols))
  {
    FitsApply(layout, w, h, excludeId, cols, x, y);
    RunAdvance(x, x1, y, Fits(layout, w, h, excludeId, cols), ok);
  }

  /** The first loop of `findNearestEmptyPosition`: rightwards along the anchor's row. */
  method ScanRow(startX: int, startY: int, w: int, h: int, layout: Layout, excludeId: string, cols: int)
    returns (found: Option<Pos>)
    ensures found == Find(Run(startX + 1, cols - w, startY), Fits(layout, w, h, excludeId, cols))
  {
    ghost var fits := Fits(layout, w, h, excludeId, cols);
    var x := startX + 1;
    ghost var whole := Find(Run(x, cols - w, startY), fits);
    while x <= cols - w
      invariant whole == Find(Run(x, cols - w, startY), fits)
      decreases cols - w - x
    {
      var ok := CanPlaceAt(x, startY, w, h, layout, excludeId, cols);
      ScanRowStep(layout, w, h, excludeId, cols, x, cols - w, startY, ok);
      if ok {
        return Some(Pos(x, startY));
      }
      x := x + 1;
    }
    RunPast(x, cols - w, startY, fits);
    return None;
  }

  /** The innermost loop: one row of ring `distance`, testing its border cells only. */
  method ScanRingRow(startX: int, startY: int, distance: int, dy: int, w: int, h: int, layout: Layout, excludeId: string, cols: int)
    returns (found: Option<Pos>)
    ensures found == Find(RingRowFrom(startX, startY, distance, startY + dy, startX - distance), Fits(layout, w, h, excludeId, cols))
  {
    ghost var fits := Fits(layout, w, h, excludeId, cols);
    var dx := -distance;
    ghost var whole := Find(RingRowFrom(startX, startY, distance, startY + dy, startX + dx), fits);
    assert startX + dx == startX - distance;
    while dx <= distance
      invariant whole == Find(RingRowFrom(startX, startY, distance, startY + dy, startX + dx), fits)
      decreases distance - dx
    {
      var hit := false;
      if Abs(dx) == distance || Abs(dy) == distance {
        hit := CanPlaceAt(startX + dx, startY + dy, w, h, layout, excludeId, cols);
        FitsApply(layout, w, h, excludeId, cols, startX + dx, startY + dy);
      }
      RingRowAdvance(startX, startY, distance, dy, dx, fits, hit);
      if hit {
        return Some(Pos(startX + dx, startY + dy));
      }
      dx := dx + 1;
    }
    return None;
  }

  /** The middle loop: the rows of ring `distance`, top to bottom. */
  method ScanRing(startX: int, startY: int, distance: int, w: int, h: int, layout: Layout, excludeId: string, cols: int)
    returns (found: Option<Pos>)
    ensures found == Find(RingRows(startX, startY, distance, startY - distance), Fits(layout, w, h, excludeId, cols))
  {
    ghost var fits := Fits(layout, w, h, excludeId, cols);
    var dy := -distance;
    ghost var whole := Find(RingRows(startX, startY, distance, startY + dy), fits);
    assert startY + dy == startY - distance;
    while dy <= distance
      invariant whole == Find(RingRows(startX, startY, distance, startY + dy), fits)
      decreases distance - dy
    {
      found := ScanRingRow(startX, startY, distance, dy, w, h, layout, excludeId, cols);
      RingRowsAdvance(startX, startY, distance, dy, fits, found);
      if found.Some? {
        return;
      }
      dy := dy + 1;
    }
    RingRowsPast(startX, startY, distance, dy, fits);
    return None;
  }

  /** The outer loop: rings 1..20. */
  method ScanRings(startX: int, startY: int, w: int, h: int, layout: Layout, excludeId: string, cols: int)
    returns (found: Option<Pos>)
    ensures found == Find(Rings(startX, startY, 1), Fits(layout, w, h, excludeId, cols))
  {
    ghost var fits := Fits(layout, w, h, excludeId, cols);
    ghost var whole := Find(Rings(startX, startY, 1), fits);
    var distance := 1;
    while distance <= MaxDistance
      invariant 1 <= distance <= MaxDistance + 1
      invariant whole == Find(Rings(startX, startY, distance), fits)
    {
      RingsStep(startX, startY, distance, fits);
      found := ScanRing(startX, startY, distance, w, h, layout, excludeId, cols);
      if found.Some? {
        return;
      }
      distance := distance + 1;
    }
    return None;
  }

  /** `findNearestEmptyPosition`. */
  method FindNearestEmptyPosition(startX: int, startY: int, w: int, h: int, layout: Layout, excludeId: string, cols: int)
    returns (p: Pos)
    ensures p == NearestEmpty(startX, startY, w, h, layout, excludeId, cols)
  {
    NearestEmptyUnfold(startX, startY, w, h, layout, excludeId, cols);
    var found := ScanRow(startX, startY, w, h, layout, excludeId, cols);
    if found.Some? {
      return found.value;
    }
    var ok := CanPlaceAt(0, startY + 1, w, h, layout, excludeId, cols);
    if ok {
      return Pos(0, startY + 1);
    }
    found := ScanRings(startX, startY, w, h, layout, excludeId, cols);
    if found.Some? {
      return found.value;
    }
    var maxY := MaxBottom(layout);
    return Pos(0, maxY + 1);
  }
}
