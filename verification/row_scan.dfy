/**
 * The row-major placement scans shared by the store's `findEmptyPosition`
 * and the settings panel's widget-enable placement: a block of cells is free
 * when no occupied cell falls inside it, and candidates are visited row by
 * row, left to right.
 */
module RowScan {
  import opened Wrappers
  import opened Seqs
  import opened GridUtils

  /** No occupied cell lies inside `r`. */
  predicate BlockFree(occ: set<Pos>, r: Rect) {
    forall c :: c in occ ==> !Covers(r, c)
  }

  /**
   * The panel's test: the block is free and, when it has any cell at all,
   * its right edge stays within `cols` columns.
   */
  predicate PanelFree(occ: set<Pos>, cols: int, r: Rect) {
    BlockFree(occ, r) && (r.w >= 1 && r.h >= 1 ==> r.x + r.w <= cols)
  }

  /** The store's candidate test for a `w`x`h` block. */
  function FreeAt(occ: set<Pos>, w: int, h: int): Pos -> bool {
    (p: Pos) => BlockFree(occ, Rect(p.x, p.y, w, h))
  }

  /** The panel's candidate test for a `w`x`h` block on `cols` columns. */
  function PanelFreeAt(occ: set<Pos>, cols: int, w: int, h: int): Pos -> bool {
    (p: Pos) => PanelFree(occ, cols, Rect(p.x, p.y, w, h))
  }

  /** Rows `y .. yEnd-1`, each of columns `0 .. xEnd`, in row-major order. */
  function Rows(y: int, yEnd: int, xEnd: int): seq<Pos>
    decreases yEnd - y
  {
    if y >= yEnd then [] else Run(0, xEnd, y) + Rows(y + 1, yEnd, xEnd)
  }

  lemma {:induction false} RowsMembers(y: int, yEnd: int, xEnd: int, p: Pos)
    ensures p in Rows(y, yEnd, xEnd) <==> y <= p.y < yEnd && 0 <= p.x <= xEnd
    decreases yEnd - y
  {
    if y < yEnd {
      RowsMembers(y + 1, yEnd, xEnd, p);
      var run := Run(0, xEnd, y);
      if p.y == y && 0 <= p.x <= xEnd {
        assert run[p.x] == p;
      }
    }
  }

  lemma {:induction false} RowsSorted(y: int, yEnd: int, xEnd: int)
    ensures SortedLex(Rows(y, yEnd, xEnd))
    decreases yEnd - y
  {
    if y < yEnd {
      RowsSorted(y + 1, yEnd, xEnd);
      var run, rest := Run(0, xEnd, y), Rows(y + 1, yEnd, xEnd);
      forall j | 0 <= j < |rest| ensures rest[j].y > y {
        RowsMembers(y + 1, yEnd, xEnd, rest[j]);
      }
      var s := run + rest;
      forall i, j | 0 <= i < j < |s| ensures LexBefore(s[i], s[j]) {
        if j < |run| {
          assert s[i] == run[i] && s[j] == run[j];
        } else if i < |run| {
          assert s[i] == run[i] && s[j] == rest[j - |run|];
        } else {
          assert s[i] == rest[i - |run|] && s[j] == rest[j - |run|];
        }
      }
    }
  }

  /** The first fit in row-major order is what the scan finds. */
  lemma {:induction false} RowsFirst(y: int, yEnd: int, xEnd: int, f: Pos -> bool, p: Pos)
    requires y <= p.y < yEnd && 0 <= p.x <= xEnd && f(p)
    requires forall q: Pos :: y <= q.y < yEnd && 0 <= q.x <= xEnd && LexBefore(q, p) ==> !f(q)
    ensures Find(Rows(y, yEnd, xEnd), f) == Some(p)
  {
    var s := Rows(y, yEnd, xEnd);
    RowsSorted(y, yEnd, xEnd);
    RowsMembers(y, yEnd, xEnd, p);
    forall i | 0 <= i < |s| && LexBefore(s[i], p) ensures !f(s[i]) {
      RowsMembers(y, yEnd, xEnd, s[i]);
    }
    FindInOrder(s, f, (q: Pos, r: Pos) => LexBefore(q, r), p);
  }

  /** Nothing in the range fits: the scan finds nothing. */
  lemma {:induction false} RowsNone(y: int, yEnd: int, xEnd: int, f: Pos -> bool)
    requires forall q: Pos :: y <= q.y < yEnd && 0 <= q.x <= xEnd ==> !f(q)
    ensures Find(Rows(y, yEnd, xEnd), f) == None
  {
    var s := Rows(y, yEnd, xEnd);
    forall i | 0 <= i < |s| ensures !f(s[i]) {
      RowsMembers(y, yEnd, xEnd, s[i]);
    }
    FindIndexIs(s, f, -1);
  }

  /** Conversely, a position the scan finds is in range, fits, and no earlier one does. */
  lemma {:induction false} RowsFound(y: int, yEnd: int, xEnd: int, f: Pos -> bool)
    ensures var r := Find(Rows(y, yEnd, xEnd), f);
      && (r.Some? ==>
            && y <= r.value.y < yEnd && 0 <= r.value.x <= xEnd && f(r.value)
            && forall q: Pos :: y <= q.y < yEnd && 0 <= q.x <= xEnd && LexBefore(q, r.value) ==> !f(q))
      && (r.None? ==> forall q: Pos :: y <= q.y < yEnd && 0 <= q.x <= xEnd ==> !f(q))
  {
    var s := Rows(y, yEnd, xEnd);
    FindIndexFacts(s, f);
    var k := FindIndex(s, f);
    if 0 <= k {
      RowsMembers(y, yEnd, xEnd, s[k]);
      RowsSorted(y, yEnd, xEnd);
      forall q: Pos | y <= q.y < yEnd && 0 <= q.x <= xEnd && LexBefore(q, s[k]) ensures !f(q) {
        RowsMembers(y, yEnd, xEnd, q);
        var j :| 0 <= j < |s| && s[j] == q;
        if k <= j {
          assert false;
        }
      }
    } else {
      forall q: Pos | y <= q.y < yEnd && 0 <= q.x <= xEnd ensures !f(q) {
        RowsMembers(y, yEnd, xEnd, q);
      }
    }
  }

  /** One row of the scan: a hit on row `y` is the answer, otherwise the scan goes on below. */
  lemma {:induction false} RowsAdvance(y: int, yEnd: int, xEnd: int, f: Pos -> bool, found: Option<Pos>)
    requires y < yEnd && found == Find(Run(0, xEnd, y), f)
    ensures found.Some? ==> Find(Rows(y, yEnd, xEnd), f) == found
    ensures found.None? ==> Find(Rows(y, yEnd, xEnd), f) == Find(Rows(y + 1, yEnd, xEnd), f)
  {
    FindConcat(Run(0, xEnd, y), Rows(y + 1, yEnd, xEnd), f);
  }

  lemma {:induction false} RowsPast(y: int, yEnd: int, xEnd: int, f: Pos -> bool)
    requires y >= yEnd
    ensures Find(Rows(y, yEnd, xEnd), f) == None
  {
  }

  /**
   * The `dy`/`dx` loops with a `canPlace` flag of `findEmptyPosition`: the
   * flag stays true exactly when no cell of the block is occupied.
   */
  method ScanBlock(occupied: set<Pos>, x: int, y: int, w: int, h: int) returns (canPlace: bool)
    ensures canPlace == BlockFree(occupied, Rect(x, y, w, h))
  {
    canPlace := true;
    var dy := 0;
    while dy < h && canPlace
      invariant 0 <= dy
      invariant canPlace ==> forall c :: c in occupied ==> !(x <= c.x < x + w && y <= c.y < y + dy)
      invariant !canPlace ==> !BlockFree(occupied, Rect(x, y, w, h))
      decreases h - dy, canPlace
    {
      var dx := 0;
      while dx < w && canPlace
        invariant 0 <= dx
        invariant canPlace ==> forall c :: c in occupied ==>
          !(x <= c.x < x + w && y <= c.y < y + dy) && !(x <= c.x < x + dx && c.y == y + dy)
        invariant !canPlace ==> !BlockFree(occupied, Rect(x, y, w, h))
        decreases w - dx, canPlace
      {
        if Pos(x + dx, y + dy) in occupied {
          assert Covers(Rect(x, y, w, h), Pos(x + dx, y + dy));
          canPlace := false;
        }
        dx := dx + 1;
      }
      dy := dy + 1;
    }
  }

  /**
   * The same loops with the panel's extra column test: a block cell at or
   * past column `cols` also clears the flag.
   */
  method ScanPanelBlock(occupied: set<Pos>, cols: int, x: int, y: int, w: int, h: int) returns (canPlace: bool)
    ensures canPlace == PanelFree(occupied, cols, Rect(x, y, w, h))
  {
    canPlace := true;
    var dy := 0;
    while dy < h && canPlace
      invariant 0 <= dy
      invariant canPlace ==> forall c :: c in occupied ==> !(x <= c.x < x + w && y <= c.y < y + dy)
      invariant canPlace && 0 < dy && 1 <= w ==> x + w <= cols
      invariant !canPlace ==> !PanelFree(occupied, cols, Rect(x, y, w, h))
      decreases h - dy, canPlace
    {
      var dx := 0;
      while dx < w && canPlace
        invariant 0 <= dx <= (if w < 0 then 0 else w)
        invariant canPlace ==> forall c :: c in occupied ==>
          !(x <= c.x < x + w && y <= c.y < y + dy) && !(x <= c.x < x + dx && c.y == y + dy)
        invariant canPlace && 0 < dy && 1 <= w ==> x + w <= cols
        invariant canPlace && 0 < dx ==> x + dx <= cols
        invariant !canPlace ==> !PanelFree(occupied, cols, Rect(x, y, w, h))
        decreases w - dx, canPlace
      {
        if x + dx >= cols || Pos(x + dx, y + dy) in occupied {
          if Pos(x + dx, y + dy) in occupied {
            assert Covers(Rect(x, y, w, h), Pos(x + dx, y + dy));
          }
          canPlace := false;
        }
        dx := dx + 1;
      }
      dy := dy + 1;
    }
  }
}
