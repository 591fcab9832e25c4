/**
 * Enabling a widget from the settings panel (`handleToggleWidget` in
 * src/components/Settings/SettingsPanel.jsx): the widget's `enabled` flag is
 * always written, and a newly enabled widget without a layout entry gets
 * one. The entry takes the widget's default rectangle when that is free,
 * else the first free block of the same size in the top 20 rows, else the
 * default rectangle after all.
 */
module SettingsPanel {
  import opened Wrappers
  import opened Seqs
  import opened JsValues
  import opened GridUtils
  import opened RowScan
  import opened Store

  /** The `defaultLayouts` table, with `{x: 0, y: 0, w: 4, h: 4}` for any other widget. */
  function DefaultRect(widgetId: string): (r: Rect)
    ensures r.w >= 1 && r.h >= 1
  {
    if widgetId == "todo" then Rect(1, 0, 3, 4)
    else if widgetId == "weather" then Rect(4, 2, 5, 3)
    else if widgetId == "clock" then Rect(4, 0, 4, 2)
    else if widgetId == "search" then Rect(4, 3, 5, 1)
    else if widgetId == "speeddial" then Rect(0, 4, 6, 4)
    else Rect(0, 0, 4, 4)
  }

  /** The scan looks at rows 0..19 only. */
  const ScanRows: int := 20

  /** The last column `x < cols` admits; -1 (none) when `cols` is NaN. */
  function PanelLastColumn(cols: Value): int {
    match ToNumber(cols)
    case Some(n) => n - 1
    case None => -1
  }

  /** `cols` as the number the `x + dx >= cols` test compares with (irrelevant when it is NaN). */
  function ColsNumber(cols: Value): int {
    ToNumber(cols).GetOr(0)
  }

  /** A block the scan accepts: in the top 20 rows, inside the columns, no occupied cell under it. */
  predicate PanelSlot(layout: Layout, cols: Value, d: Rect, p: Pos) {
    0 <= p.y < ScanRows && 0 <= p.x <= PanelLastColumn(cols)
      && PanelFree(CellsOf(layout), ColsNumber(cols), Rect(p.x, p.y, d.w, d.h))
  }

  /** The rectangle chosen for default rectangle `d`: `d` itself if free, else the scan's outcome. */
  function PlacementFor(layout: Layout, cols: Value, d: Rect): Rect {
    var occupied := CellsOf(layout);
    if BlockFree(occupied, d) then d
    else ScanOutcome(Find(Rows(0, ScanRows, PanelLastColumn(cols)), PanelFreeAt(occupied, ColsNumber(cols), d.w, d.h)), d)
  }

  /** The rectangle `handleToggleWidget` writes for a widget without a layout entry. */
  function Placement(layout: Layout, cols: Value, widgetId: string): Rect {
    PlacementFor(layout, cols, DefaultRect(widgetId))
  }

  /** What the handler does to the store. */
  function ToggleWidget(s: State, widgetId: string, enabled: bool): State {
    var updated := UpdateWidget(s, widgetId, map["enabled" := Bool(enabled)]);
    if enabled && FindIndex(s.layout, HasId(widgetId)) < 0 then
      UpdateLayout(updated, widgetId, Placement(s.layout, Field(s.gridConfig, "cols"), widgetId))
    else updated
  }

  /** The `isOccupied` loops: any occupied cell of the default rectangle stops both loops. */
  method DefaultOccupied(occupied: set<Pos>, d: Rect) returns (isOccupied: bool)
    ensures isOccupied == !BlockFree(occupied, d)
  {
    isOccupied := false;
    var y := d.y;
    while y < d.y + d.h
      invariant d.y <= y
      invariant !isOccupied
      invariant forall c :: c in occupied ==> !(d.x <= c.x < d.x + d.w && d.y <= c.y < y)
      decreases d.y + d.h - y
    {
      var x := d.x;
      while x < d.x + d.w
        invariant d.x <= x
        invariant !isOccupied
        invariant forall c :: c in occupied ==>
          !(d.x <= c.x < d.x + d.w && d.y <= c.y < y) && !(d.x <= c.x < x && c.y == y)
        decreases d.x + d.w - x
      {
        if Pos(x, y) in occupied {
          assert Covers(d, Pos(x, y));
          isOccupied := true;
          break;
        }
        x := x + 1;
      }
      if isOccupied {
        break;
      }
      y := y + 1;
    }
  }

  /** The scan's outcome: the first accepted block with the default size, or the default itself. */
  function ScanOutcome(found: Option<Pos>, d: Rect): Rect {
    match found
    case Some(p) => Rect(p.x, p.y, d.w, d.h)
    case None => d
  }

  /** One column of a row scanned with the block test's answer `canPlace`. */
  lemma {:induction false} PanelColumnStep(occupied: set<Pos>, cols: int, w: int, h: int, x: int, xEnd: int, y: int, canPlace: bool)
    requires x <= xEnd && canPlace == PanelFree(occupied, cols, Rect(x, y, w, h))
    ensures canPlace ==> Find(Run(x, xEnd, y), PanelFreeAt(occupied, cols, w, h)) == Some(Pos(x, y))
    ensures !canPlace ==> Find(Run(x, xEnd, y), PanelFreeAt(occupied, cols, w, h)) == Find(Run(x + 1, xEnd, y), PanelFreeAt(occupied, cols, w, h))
  {
    var free := PanelFreeAt(occupied, cols, w, h);
    assert free(Pos(x, y)) == canPlace;
    RunAdvance(x, xEnd, y, free, canPlace);
  }

  /** The 20-row scan with its `found` and `canPlace` flags. */
  method ScanPanel(occupied: set<Pos>, cols: Value, d: Rect) returns (finalPosition: Rect)
    ensures finalPosition == ScanOutcome(Find(Rows(0, ScanRows, PanelLastColumn(cols)),
      PanelFreeAt(occupied, ColsNumber(cols), d.w, d.h)), d)
  {
    var xEnd := PanelLastColumn(cols);
    var colsN := ColsNumber(cols);
    ghost var free := PanelFreeAt(occupied, colsN, d.w, d.h);
    ghost var whole := Find(Rows(0, ScanRows, xEnd), free);
    finalPosition := d;
    var found := false;
    var y := 0;
    while y < ScanRows && !found
      invariant 0 <= y <= ScanRows
      invariant !found ==> finalPosition == d && whole == Find(Rows(y, ScanRows, xEnd), free)
      invariant found ==> whole.Some? && finalPosition == ScanOutcome(whole, d)
      decreases ScanRows - y
    {
      ghost var row := Find(Run(0, xEnd, y), free);
      var x := 0;
      while x <= xEnd && !found
        invariant 0 <= x
        invariant !found ==> finalPosition == d && row == Find(Run(x, xEnd, y), free)
        invariant found ==> row.Some? && finalPosition == ScanOutcome(row, d)
        decreases xEnd - x
      {
        var canPlace := ScanPanelBlock(occupied, colsN, x, y, d.w, d.h);
        PanelColumnStep(occupied, colsN, d.w, d.h, x, xEnd, y, canPlace);
        if canPlace {
          finalPosition := Rect(x, y, d.w, d.h);
          found := true;
        }
        x := x + 1;
      }
      if !found {
        RunPast(x, xEnd, y, free);
      }
      RowsAdvance(y, ScanRows, xEnd, free, row);
      y := y + 1;
    }
    if !found {
      RowsPast(y, ScanRows, xEnd, free);
    }
  }

  /** `handleToggleWidget(widgetId, enabled)`. */
  method HandleToggleWidget(s: State, widgetId: string, enabled: bool) returns (r: State)
    ensures r == ToggleWidget(s, widgetId, enabled)
  {
    r := UpdateWidget(s, widgetId, map["enabled" := Bool(enabled)]);
    if enabled {
      var k := FindIndex(s.layout, HasId(widgetId));
      if k < 0 {
        var d := DefaultRect(widgetId);
        var finalPosition := d;
        var occupied := OccupiedCells(s.layout);
        var isOccupied := DefaultOccupied(occupied, d);
        if isOccupied {
          finalPosition := ScanPanel(occupied, Field(s.gridConfig, "cols"), d);
        }
        r := UpdateLayout(r, widgetId, finalPosition);
      }
    }
  }

  /**
   * The flag is written in every case; the layout changes only for an
   * enabled widget without an entry, which gets one appended at `Placement`.
   */
  lemma {:induction false} ToggleWidgetEffect(s: State, widgetId: string, enabled: bool)
    ensures var r := ToggleWidget(s, widgetId, enabled);
      && Get(Field(r.widgets, widgetId), "enabled") == Bool(enabled)
      && (forall k :: k != widgetId ==> Field(r.widgets, k) == Field(s.widgets, k))
      && (!enabled || FindIndex(s.layout, HasId(widgetId)) >= 0 ==> r.layout == s.layout)
      && (enabled && FindIndex(s.layout, HasId(widgetId)) < 0 ==>
            var p := Placement(s.layout, Field(s.gridConfig, "cols"), widgetId);
            r.layout == s.layout + [Item(widgetId, p.x, p.y, p.w, p.h)])
  {
  }

  /** The scan's test at `q` is `PanelSlot` for positions the scan visits. */
  lemma {:induction false} SlotIsFree(layout: Layout, cols: Value, d: Rect, q: Pos)
    ensures PanelSlot(layout, cols, d, q) <==>
      0 <= q.y < ScanRows && 0 <= q.x <= PanelLastColumn(cols)
        && PanelFreeAt(CellsOf(layout), ColsNumber(cols), d.w, d.h)(q)
  {
  }

  /** A free default rectangle is used as it is. */
  lemma {:induction false} PlacementWhenFree(layout: Layout, cols: Value, d: Rect)
    requires BlockFree(CellsOf(layout), d)
    ensures PlacementFor(layout, cols, d) == d
  {
  }

  /**
   * An occupied default rectangle moves to the first accepted block in
   * row-major order, keeping its size, when there is one.
   */
  lemma {:induction false} PlacementScanned(layout: Layout, cols: Value, d: Rect)
    requires !BlockFree(CellsOf(layout), d)
    requires exists q: Pos :: PanelSlot(layout, cols, d, q)
    ensures var r := PlacementFor(layout, cols, d);
      && r.w == d.w && r.h == d.h && PanelSlot(layout, cols, d, Pos(r.x, r.y))
      && forall q: Pos :: LexBefore(q, Pos(r.x, r.y)) ==> !PanelSlot(layout, cols, d, q)
  {
    var xEnd := PanelLastColumn(cols);
    var free := PanelFreeAt(CellsOf(layout), ColsNumber(cols), d.w, d.h);
    var found := Find(Rows(0, ScanRows, xEnd), free);
    RowsFound(0, ScanRows, xEnd, free);
    if found.None? {
      var q :| PanelSlot(layout, cols, d, q);
      SlotIsFree(layout, cols, d, q);
      assert false;
    }
    var p := found.value;
    assert PlacementFor(layout, cols, d) == Rect(p.x, p.y, d.w, d.h);
    SlotIsFree(layout, cols, d, p);
    forall q: Pos | LexBefore(q, p) ensures !PanelSlot(layout, cols, d, q) {
      SlotIsFree(layout, cols, d, q);
    }
  }

  /** With no accepted block in the 20 rows, the default rectangle is used after all. */
  lemma {:induction false} PlacementNoSlot(layout: Layout, cols: Value, d: Rect)
    requires forall q: Pos :: !PanelSlot(layout, cols, d, q)
    ensures PlacementFor(layout, cols, d) == d
  {
    var xEnd := PanelLastColumn(cols);
    var free := PanelFreeAt(CellsOf(layout), ColsNumber(cols), d.w, d.h);
    forall q: Pos | 0 <= q.y < ScanRows && 0 <= q.x <= xEnd ensures !free(q) {
      SlotIsFree(layout, cols, d, q);
    }
    RowsNone(0, ScanRows, xEnd, free);
  }

  /**
   * A block found by the scan lies inside the columns and overlaps no
   * existing entry (entries with at least one cell).
   */
  lemma {:induction false} ScannedPlacementClear(layout: Layout, cols: Value, d: Rect)
    requires d.w >= 1 && d.h >= 1
    requires forall i :: 0 <= i < |layout| ==> layout[i].w >= 1 && layout[i].h >= 1
    requires !BlockFree(CellsOf(layout), d)
    requires exists q: Pos :: PanelSlot(layout, cols, d, q)
    ensures var r := PlacementFor(layout, cols, d);
      && r.x + r.w <= ColsNumber(cols)
      && forall i :: 0 <= i < |layout| ==> !Overlaps(r, layout[i].Box())
  {
    PlacementScanned(layout, cols, d);
    var r := PlacementFor(layout, cols, d);
    forall i | 0 <= i < |layout| ensures !Overlaps(r, layout[i].Box()) {
      if Overlaps(r, layout[i].Box()) {
        OverlapsIffSharedCell(r, layout[i].Box());
        var c :| Covers(r, c) && Covers(layout[i].Box(), c);
        CellsOfIff(layout, c);
        assert false;
      }
    }
  }

  /**
   * The default rectangle is not checked against the column count: on an
   * empty 6-column grid the weather widget is placed at x = 4 with w = 5.
   */
  lemma {:induction false} DefaultIgnoresColumns()
    ensures var r := Placement([], Num(6), "weather");
      r == Rect(4, 2, 5, 3) && r.x + r.w > 6
  {
    assert CellsOf([]) == {};
  }
}
