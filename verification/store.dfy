/**
 * The persisted application store (src/store/useStore.js): its own
 * placement search `findEmptyPosition`, and the actions that add, move and
 * remove layout entries, shortcuts, widget instances and note instances, or
 * shallow-merge configuration objects. Every action maps the old state to
 * the new one; `Date.now()` and ISO time stamps are parameters.
 */
module Store {
  import opened Wrappers
  import opened Seqs
  import opened Strings
  import opened JsValues
  import opened GridUtils
  import opened RowScan

  /** An entry of `widgetInstances`. */
  datatype Instance = Instance(id: string, kind: string, config: Props, createdAt: string, updatedAt: string)

  /** The parts of the store the actions read and write. */
  datatype State = State(
    shortcuts: seq<Props>,
    widgetInstances: seq<Instance>,
    widgets: Props,
    widgetStyles: Props,
    gridConfig: Props,
    layout: Layout)

  // ---------------------------------------------------------------------
  // findEmptyPosition
  // ---------------------------------------------------------------------

  /** Rows above this one are kept for widgets. */
  const FirstRow: int := 5
  /** The search stops before this row. */
  const RowLimit: int := 100

  /** The column bound `cols - w` of the scan; -1 (no column at all) when `cols` is NaN. */
  function LastColumn(cols: Value, w: int): int {
    match ToNumber(cols)
    case Some(n) => n - w
    case None => -1
  }

  /** A candidate the scan accepts: in the scanned range, and no occupied cell under the block. */
  predicate Slot(layout: Layout, cols: Value, w: int, h: int, p: Pos) {
    FirstRow <= p.y < RowLimit && 0 <= p.x <= LastColumn(cols, w)
      && BlockFree(CellsOf(layout), Rect(p.x, p.y, w, h))
  }

  /** What `findEmptyPosition` returns: the first candidate in row-major order, else (0, 5). */
  function EmptyPosition(layout: Layout, cols: Value, w: int, h: int): Pos {
    match Find(Rows(FirstRow, RowLimit, LastColumn(cols, w)), FreeAt(CellsOf(layout), w, h))
    case Some(p) => p
    case None => Pos(0, FirstRow)
  }

  /** `findEmptyPosition(state, w, h)`: the occupied-cell set, then rows 5..99 and columns 0..cols-w. */
  method FindEmptyPosition(s: State, w: int, h: int) returns (p: Pos)
    ensures p == EmptyPosition(s.layout, Field(s.gridConfig, "cols"), w, h)
  {
    var cols := Field(s.gridConfig, "cols");
    var occupied := OccupiedCells(s.layout);
    var xEnd := LastColumn(cols, w);
    ghost var free := FreeAt(occupied, w, h);
    var y := FirstRow;
    while y < RowLimit
      invariant FirstRow <= y <= RowLimit
      invariant Find(Rows(FirstRow, RowLimit, xEnd), free) == Find(Rows(y, RowLimit, xEnd), free)
      decreases RowLimit - y
    {
      var x := 0;
      while x <= xEnd
        invariant 0 <= x
        invariant Find(Run(0, xEnd, y), free) == Find(Run(x, xEnd, y), free)
        decreases xEnd - x
      {
        var canPlace := ScanBlock(occupied, x, y, w, h);
        RunAdvance(x, xEnd, y, free, canPlace);
        if canPlace {
          RowsAdvance(y, RowLimit, xEnd, free, Some(Pos(x, y)));
          return Pos(x, y);
        }
        x := x + 1;
      }
      FindIndexIs(Run(x, xEnd, y), free, -1);
      RowsAdvance(y, RowLimit, xEnd, free, None);
      y := y + 1;
    }
    RowsPast(y, RowLimit, xEnd, free);
    return Pos(0, FirstRow);
  }

  /** The scan's test at `q` is `Slot` for the positions the scan visits. */
  lemma {:induction false} SlotIsFree(layout: Layout, cols: Value, w: int, h: int, q: Pos)
    ensures Slot(layout, cols, w, h, q) <==>
      FirstRow <= q.y < RowLimit && 0 <= q.x <= LastColumn(cols, w) && FreeAt(CellsOf(layout), w, h)(q)
  {
  }

  /**
   * When there is a slot, the result is the first slot in row-major order
   * (and so never above row 5).
   */
  lemma {:induction false} EmptyPositionIsFirstSlot(layout: Layout, cols: Value, w: int, h: int)
    requires exists q: Pos :: Slot(layout, cols, w, h, q)
    ensures var r := EmptyPosition(layout, cols, w, h);
      && Slot(layout, cols, w, h, r)
      && forall q: Pos :: LexBefore(q, r) ==> !Slot(layout, cols, w, h, q)
  {
    var xEnd := LastColumn(cols, w);
    var free := FreeAt(CellsOf(layout), w, h);
    var found := Find(Rows(FirstRow, RowLimit, xEnd), free);
    RowsFound(FirstRow, RowLimit, xEnd, free);
    if found.None? {
      var q :| Slot(layout, cols, w, h, q);
      SlotIsFree(layout, cols, w, h, q);
      assert false;
    }
    var p := found.value;
    SlotIsFree(layout, cols, w, h, p);
    forall q: Pos | LexBefore(q, p) ensures !Slot(layout, cols, w, h, q) {
      SlotIsFree(layout, cols, w, h, q);
    }
  }

  /** With no slot at all the result is (0, 5). */
  lemma {:induction false} EmptyPositionNoSlot(layout: Layout, cols: Value, w: int, h: int)
    requires forall q: Pos :: !Slot(layout, cols, w, h, q)
    ensures EmptyPosition(layout, cols, w, h) == Pos(0, FirstRow)
  {
    var xEnd := LastColumn(cols, w);
    var free := FreeAt(CellsOf(layout), w, h);
    forall q: Pos | FirstRow <= q.y < RowLimit && 0 <= q.x <= xEnd ensures !free(q) {
      SlotIsFree(layout, cols, w, h, q);
    }
    RowsNone(FirstRow, RowLimit, xEnd, free);
  }

  /** Either way the result is never above row 5. */
  lemma {:induction false} EmptyPositionBelowReserved(layout: Layout, cols: Value, w: int, h: int)
    ensures EmptyPosition(layout, cols, w, h).y >= FirstRow
  {
    RowsFound(FirstRow, RowLimit, LastColumn(cols, w), FreeAt(CellsOf(layout), w, h));
  }

  /**
   * A slot the search finds overlaps no existing entry, provided the block
   * and every entry have at least one cell.
   */
  lemma {:induction false} EmptyPositionClear(layout: Layout, cols: Value, w: int, h: int)
    requires w >= 1 && h >= 1
    requires forall i :: 0 <= i < |layout| ==> layout[i].w >= 1 && layout[i].h >= 1
    requires exists q: Pos :: Slot(layout, cols, w, h, q)
    ensures var r := EmptyPosition(layout, cols, w, h);
      forall i :: 0 <= i < |layout| ==> !Overlaps(Rect(r.x, r.y, w, h), layout[i].Box())
  {
    EmptyPositionIsFirstSlot(layout, cols, w, h);
    var r := EmptyPosition(layout, cols, w, h);
    var box := Rect(r.x, r.y, w, h);
    forall i | 0 <= i < |layout| ensures !Overlaps(box, layout[i].Box()) {
      if Overlaps(box, layout[i].Box()) {
        OverlapsIffSharedCell(box, layout[i].Box());
        var c :| Covers(box, c) && Covers(layout[i].Box(), c);
        CellsOfIff(layout, c);
        assert c in CellsOf(layout);
        assert false;
      }
    }
  }

  /** The new entry an add action appends: `{id, x, y, w, h}` at the `findEmptyPosition` result. */
  function PlaceNew(s: State, id: string, w: int, h: int): (r: Item)
    ensures r.id == id && r.w == w && r.h == h
    ensures Pos(r.x, r.y) == EmptyPosition(s.layout, Field(s.gridConfig, "cols"), w, h)
  {
    var p := EmptyPosition(s.layout, Field(s.gridConfig, "cols"), w, h);
    Item(id, p.x, p.y, w, h)
  }

  // ---------------------------------------------------------------------
  // Layout entries
  // ---------------------------------------------------------------------

  /** The filter test `item.id !== id`. */
  function NotId(id: string): Item -> bool {
    (it: Item) => it.id != id
  }

  /** `layout.filter(item => item.id !== id)`. */
  function WithoutId(layout: Layout, id: string): Layout {
    Filter(layout, NotId(id))
  }

  /**
   * Removing by id drops exactly the entries with that id: what is left is
   * every other entry, their number is the total minus the matches, and
   * removal distributes over concatenation, so the rest keep their order.
   */
  lemma {:induction false} WithoutIdMeans(layout: Layout, id: string)
    ensures forall it :: it in WithoutId(layout, id) <==> it in layout && it.id != id
    ensures |WithoutId(layout, id)| == |layout| - |Filter(layout, HasId(id))|
    ensures forall a, b :: a + b == layout ==> WithoutId(layout, id) == WithoutId(a, id) + WithoutId(b, id)
  {
    var r := WithoutId(layout, id);
    forall it | it in r ensures it in layout && it.id != id {
      var i :| 0 <= i < |r| && r[i] == it;
    }
    forall it | it in layout && it.id != id ensures it in r {
      var i :| 0 <= i < |layout| && layout[i] == it;
    }
    FilterComplement(layout, HasId(id), NotId(id));
    forall a, b | a + b == layout ensures WithoutId(layout, id) == WithoutId(a, id) + WithoutId(b, id) {
      FilterConcat(a, b, NotId(id));
    }
  }

  /** `{ ...entry, ...position }` with a position carrying all of x, y, w and h. */
  function Placed(it: Item, pos: Rect): Item {
    Item(it.id, pos.x, pos.y, pos.w, pos.h)
  }

  /** `updateLayout(id, position)`: rewrite the first entry with that id, or append a new one. */
  function UpdateLayout(s: State, id: string, pos: Rect): (r: State)
    ensures r.layout == (var k := FindIndex(s.layout, HasId(id));
      if 0 <= k then s.layout[k := Item(id, pos.x, pos.y, pos.w, pos.h)]
      else s.layout + [Item(id, pos.x, pos.y, pos.w, pos.h)])
    ensures r == s.(layout := r.layout)
  {
    var k := FindIndex(s.layout, HasId(id));
    FindIndexFacts(s.layout, HasId(id));
    if k >= 0 then s.(layout := s.layout[k := Placed(s.layout[k], pos)])
    else s.(layout := s.layout + [Item(id, pos.x, pos.y, pos.w, pos.h)])
  }

  /**
   * After `updateLayout` the first entry with that id sits exactly at the
   * given position; the entry count grows by one only when the id was new.
   */
  lemma {:induction false} UpdateLayoutThenFind(s: State, id: string, pos: Rect)
    ensures var r := UpdateLayout(s, id, pos);
      var k := FindIndex(r.layout, HasId(id));
      && 0 <= k && r.layout[k].Box() == pos
      && |r.layout| == |s.layout| + (if FindIndex(s.layout, HasId(id)) < 0 then 1 else 0)
  {
    var r := UpdateLayout(s, id, pos);
    var k0 := FindIndex(s.layout, HasId(id));
    FindIndexFacts(s.layout, HasId(id));
    if 0 <= k0 {
      FindIndexIs(r.layout, HasId(id), k0);
    } else {
      assert r.layout[|s.layout|].id == id;
      FindIndexIs(r.layout, HasId(id), |s.layout|);
    }
  }

  /** Writing the same position twice is the same as writing it once. */
  lemma {:induction false} UpdateLayoutIdempotent(s: State, id: string, pos: Rect)
    ensures UpdateLayout(UpdateLayout(s, id, pos), id, pos) == UpdateLayout(s, id, pos)
  {
    var r := UpdateLayout(s, id, pos);
    UpdateLayoutThenFind(s, id, pos);
    var k := FindIndex(r.layout, HasId(id));
    FindIndexFacts(r.layout, HasId(id));
    assert r.layout[k] == Item(id, pos.x, pos.y, pos.w, pos.h);
    assert r.layout[k := Item(id, pos.x, pos.y, pos.w, pos.h)] == r.layout;
  }

  /** `removeFromLayout(id)`. */
  function RemoveFromLayout(s: State, id: string): (r: State)
    ensures r == s.(layout := WithoutId(s.layout, id))
    ensures forall it :: it in r.layout ==> it.id != id
  {
    WithoutIdMeans(s.layout, id);
    s.(layout := WithoutId(s.layout, id))
  }

  // ---------------------------------------------------------------------
  // Shortcuts
  // ---------------------------------------------------------------------

  /** The layout id of a shortcut, `` `shortcut-${id}` ``. */
  function ShortcutKey(id: int): string {
    "shortcut-" + IntToString(id)
  }

  /** The filter test `s.id !== id`. */
  function OtherShortcut(id: int): Props -> bool {
    (sc: Props) => Field(sc, "id") != Num(id)
  }

  /**
   * `addShortcut(shortcut)` at time `now`: the shortcut gets id `now`, and one
   * 1x1 entry `shortcut-<now>` is appended at the `findEmptyPosition` result.
   */
  function AddShortcut(s: State, shortcut: Props, now: int): (r: State)
    ensures r.shortcuts == s.shortcuts + [Merge(shortcut, map["id" := Num(now)])]
    ensures |r.layout| == |s.layout| + 1 && r.layout[..|s.layout|] == s.layout
    ensures r.layout[|s.layout|] == PlaceNew(s, ShortcutKey(now), 1, 1)
    ensures r.widgetInstances == s.widgetInstances && r.widgets == s.widgets
    ensures r.widgetStyles == s.widgetStyles && r.gridConfig == s.gridConfig
  {
    var item := PlaceNew(s, ShortcutKey(now), 1, 1);
    assert (s.layout + [item])[..|s.layout|] == s.layout;
    s.(shortcuts := s.shortcuts + [Merge(shortcut, map["id" := Num(now)])],
       layout := s.layout + [item])
  }

  /** `removeShortcut(id)`: the shortcuts with that id and the entries `shortcut-<id>` go. */
  function RemoveShortcut(s: State, id: int): (r: State)
    ensures forall sc :: sc in r.shortcuts <==> sc in s.shortcuts && Field(sc, "id") != Num(id)
    ensures r.shortcuts == Filter(s.shortcuts, OtherShortcut(id))
    ensures r.layout == WithoutId(s.layout, ShortcutKey(id))
    ensures r == s.(shortcuts := r.shortcuts, layout := r.layout)
  {
    var kept := Filter(s.shortcuts, OtherShortcut(id));
    assert forall sc :: sc in kept ==> sc in s.shortcuts && Field(sc, "id") != Num(id) by {
      forall sc | sc in kept ensures sc in s.shortcuts && Field(sc, "id") != Num(id) {
        var i :| 0 <= i < |kept| && kept[i] == sc;
      }
    }
    assert forall sc :: sc in s.shortcuts && Field(sc, "id") != Num(id) ==> sc in kept by {
      forall sc | sc in s.shortcuts && Field(sc, "id") != Num(id) ensures sc in kept {
        var i :| 0 <= i < |s.shortcuts| && s.shortcuts[i] == sc;
      }
    }
    s.(shortcuts := kept, layout := WithoutId(s.layout, ShortcutKey(id)))
  }

  /** Removing a freshly added shortcut restores the state, when its id was not in use. */
  lemma {:induction false} RemoveShortcutUndoesAdd(s: State, shortcut: Props, now: int)
    requires forall i :: 0 <= i < |s.shortcuts| ==> Field(s.shortcuts[i], "id") != Num(now)
    requires forall i :: 0 <= i < |s.layout| ==> s.layout[i].id != ShortcutKey(now)
    ensures RemoveShortcut(AddShortcut(s, shortcut, now), now) == s
  {
    var a := AddShortcut(s, shortcut, now);
    var added := Merge(shortcut, map["id" := Num(now)]);
    var item := a.layout[|s.layout|];
    assert a.shortcuts == s.shortcuts + [added];
    assert a.layout == s.layout + [item];
    assert Field(added, "id") == Num(now);
    FilterDropsAppended(s.shortcuts, added, OtherShortcut(now));
    assert item.id == ShortcutKey(now);
    FilterDropsAppended(s.layout, item, NotId(ShortcutKey(now)));
  }

  /** A new shortcut's cell is free, when the search found a slot and every entry has a cell. */
  lemma {:induction false} AddShortcutPlacesClear(s: State, shortcut: Props, now: int)
    requires forall i :: 0 <= i < |s.layout| ==> s.layout[i].w >= 1 && s.layout[i].h >= 1
    requires exists q: Pos :: Slot(s.layout, Field(s.gridConfig, "cols"), 1, 1, q)
    ensures var r := AddShortcut(s, shortcut, now);
      forall i :: 0 <= i < |s.layout| ==> !Overlaps(r.layout[|s.layout|].Box(), r.layout[i].Box())
  {
    EmptyPositionClear(s.layout, Field(s.gridConfig, "cols"), 1, 1);
  }

  // ---------------------------------------------------------------------
  // Widget instances
  // ---------------------------------------------------------------------

  /** The default block size of `addWidgetInstance` and the size of a note. */
  const DefaultSize: int := 4

  /** The layout id of a widget instance, `` `${type}-${Date.now()}` ``. */
  function InstanceKey(kind: string, now: int): string {
    kind + "-" + IntToString(now)
  }

  /**
   * `addWidgetInstance(type, config, size)`: `w`/`h` are the size's fields,
   * `None` where a field is absent (defaulting to 4); one instance and one
   * entry of that size are appended.
   */
  function AddWidgetInstance(s: State, kind: string, config: Props, w: Option<int>, h: Option<int>, now: int, stamp: string): (r: State)
    ensures var id := InstanceKey(kind, now);
      && r.widgetInstances == s.widgetInstances + [Instance(id, kind, config, stamp, stamp)]
      && |r.layout| == |s.layout| + 1 && r.layout[..|s.layout|] == s.layout
      && r.layout[|s.layout|] == PlaceNew(s, id, w.GetOr(DefaultSize), h.GetOr(DefaultSize))
    ensures r == s.(widgetInstances := r.widgetInstances, layout := r.layout)
  {
    var id := InstanceKey(kind, now);
    var item := PlaceNew(s, id, w.GetOr(DefaultSize), h.GetOr(DefaultSize));
    assert (s.layout + [item])[..|s.layout|] == s.layout;
    s.(widgetInstances := s.widgetInstances + [Instance(id, kind, config, stamp, stamp)],
       layout := s.layout + [item])
  }

  /** The test `inst.id === id`. */
  function IsInstance(id: string): Instance -> bool {
    (inst: Instance) => inst.id == id
  }

  /** The filter test `inst.id !== id`. */
  function OtherInstance(id: string): Instance -> bool {
    (inst: Instance) => inst.id != id
  }

  /**
   * `updateWidgetInstance(id, configUpdates)`: the first instance with that id
   * gets its config shallow-merged and a new `updatedAt`; an unknown id
   * leaves the state as it is.
   */
  function UpdateWidgetInstance(s: State, id: string, updates: Props, stamp: string): (r: State)
    ensures var k := FindIndex(s.widgetInstances, IsInstance(id));
      && (k < 0 ==> r == s)
      && (0 <= k ==>
            && r == s.(widgetInstances := r.widgetInstances)
            && |r.widgetInstances| == |s.widgetInstances|
            && (forall i :: 0 <= i < |s.widgetInstances| && i != k ==> r.widgetInstances[i] == s.widgetInstances[i])
            && var old_ := s.widgetInstances[k];
               var new_ := r.widgetInstances[k];
               && new_.id == old_.id && new_.kind == old_.kind && new_.createdAt == old_.createdAt
               && new_.updatedAt == stamp
               && new_.config.Keys == old_.config.Keys + updates.Keys
               && (forall key :: key in updates ==> new_.config[key] == updates[key])
               && (forall key :: key in old_.config && key !in updates ==> new_.config[key] == old_.config[key]))
  {
    var k := FindIndex(s.widgetInstances, IsInstance(id));
    if k == -1 then s
    else
      var inst := s.widgetInstances[k];
      s.(widgetInstances := s.widgetInstances[k := inst.(config := Merge(inst.config, updates), updatedAt := stamp)])
  }

  /** `removeWidgetInstance(id)`: the instances and the layout entries with that id go. */
  function RemoveWidgetInstance(s: State, id: string): (r: State)
    ensures forall inst :: inst in r.widgetInstances <==> inst in s.widgetInstances && inst.id != id
    ensures r.widgetInstances == Filter(s.widgetInstances, OtherInstance(id))
    ensures r.layout == WithoutId(s.layout, id)
    ensures r == s.(widgetInstances := r.widgetInstances, layout := r.layout)
  {
    var kept := Filter(s.widgetInstances, OtherInstance(id));
    assert forall inst :: inst in kept ==> inst in s.widgetInstances && inst.id != id by {
      forall inst | inst in kept ensures inst in s.widgetInstances && inst.id != id {
        var i :| 0 <= i < |kept| && kept[i] == inst;
      }
    }
    assert forall inst :: inst in s.widgetInstances && inst.id != id ==> inst in kept by {
      forall inst | inst in s.widgetInstances && inst.id != id ensures inst in kept {
        var i :| 0 <= i < |s.widgetInstances| && s.widgetInstances[i] == inst;
      }
    }
    s.(widgetInstances := kept, layout := WithoutId(s.layout, id))
  }

  /** Removing a freshly added instance restores the state, when its id was not in use. */
  lemma {:induction false} RemoveWidgetInstanceUndoesAdd(s: State, kind: string, config: Props, w: Option<int>, h: Option<int>, now: int, stamp: string)
    requires forall i :: 0 <= i < |s.widgetInstances| ==> s.widgetInstances[i].id != InstanceKey(kind, now)
    requires forall i :: 0 <= i < |s.layout| ==> s.layout[i].id != InstanceKey(kind, now)
    ensures RemoveWidgetInstance(AddWidgetInstance(s, kind, config, w, h, now, stamp), InstanceKey(kind, now)) == s
  {
    var id := InstanceKey(kind, now);
    var a := AddWidgetInstance(s, kind, config, w, h, now, stamp);
    var inst := Instance(id, kind, config, stamp, stamp);
    var item := a.layout[|s.layout|];
    assert a.widgetInstances == s.widgetInstances + [inst];
    assert a.layout == s.layout + [item];
    FilterDropsAppended(s.widgetInstances, inst, OtherInstance(id));
    assert item.id == id;
    FilterDropsAppended(s.layout, item, NotId(id));
  }

  // ---------------------------------------------------------------------
  // Configuration merges
  // ---------------------------------------------------------------------

  /** `updateWidget(name, config)`: `widgets[name]` becomes `{...widgets[name], ...config}`. */
  function UpdateWidget(s: State, name: string, config: Props): (r: State)
    ensures r == s.(widgets := r.widgets)
    ensures forall k :: k != name ==> Field(r.widgets, k) == Field(s.widgets, k)
    ensures Field(r.widgets, name).Obj?
    ensures forall k ::
      Get(Field(r.widgets, name), k) == (if k in config then config[k] else Get(Field(s.widgets, name), k))
  {
    s.(widgets := s.widgets[name := Obj(Merge(Spread(Field(s.widgets, name)), config))])
  }

  /** `setWidgetStyles(styles)`: a shallow merge into `widgetStyles`. */
  function SetWidgetStyles(s: State, styles: Props): (r: State)
    ensures r == s.(widgetStyles := r.widgetStyles)
    ensures forall k :: Field(r.widgetStyles, k) == if k in styles then styles[k] else Field(s.widgetStyles, k)
  {
    s.(widgetStyles := Merge(s.widgetStyles, styles))
  }

  /** `setGridConfig(config)`: a shallow merge into `gridConfig`. */
  function SetGridConfig(s: State, config: Props): (r: State)
    ensures r == s.(gridConfig := r.gridConfig)
    ensures forall k :: Field(r.gridConfig, k) == if k in config then config[k] else Field(s.gridConfig, k)
  {
    s.(gridConfig := Merge(s.gridConfig, config))
  }

  /** A shallow merge applied twice is applied once, for any of the three merge actions. */
  lemma {:induction false} MergesIdempotent(s: State, name: string, config: Props)
    ensures UpdateWidget(UpdateWidget(s, name, config), name, config) == UpdateWidget(s, name, config)
    ensures SetWidgetStyles(SetWidgetStyles(s, config), config) == SetWidgetStyles(s, config)
    ensures SetGridConfig(SetGridConfig(s, config), config) == SetGridConfig(s, config)
  {
    var once := Merge(Spread(Field(s.widgets, name)), config);
    MergeIdempotent(Spread(Field(s.widgets, name)), config);
    assert Spread(Obj(once)) == once;
    MergeIdempotent(s.widgetStyles, config);
    MergeIdempotent(s.gridConfig, config);
  }

  // ---------------------------------------------------------------------
  // Note instances
  // ---------------------------------------------------------------------

  /** The notes configuration used when `widgets.notes` is missing. */
  function NotesDefault(): Props {
    map[
      "enabled" := Bool(true),
      "instances" := Obj(map[]),
      "settings" := Obj(map["defaultTitle" := Str("新笔记")])
    ]
  }

  /** The layout id of a note, `` `note-${Date.now()}` ``. */
  function NoteKey(now: int): string {
    "note-" + IntToString(now)
  }

  /** `widgets.notes.instances`, read with optional chaining. */
  function NoteInstances(widgets: Props): Value {
    Get(Field(widgets, "notes"), "instances")
  }

  /**
   * `addNoteInstance(config)`: a note `{id, title, content, createdAt,
   * updatedAt, isEditing}` overridden by `config` is stored under
   * `notes.instances[id]`, and a 4x4 entry is appended. Reading
   * `notesConfig.settings.defaultTitle` throws when `settings` is missing.
   */
  function AddNoteInstance(s: State, config: Props, now: int, stamp: string): (r: Result<State, JsError>)
    ensures r.Ok? <==> !Nullish(Get(NotesConfig(s.widgets), "settings"))
    ensures r.Ok? ==> r.value.layout == s.layout + [PlaceNew(s, NoteKey(now), DefaultSize, DefaultSize)]
    ensures r.Ok? ==> r.value == s.(widgets := r.value.widgets, layout := r.value.layout)
  {
    var id := NoteKey(now);
    var notesConfig := NotesConfig(s.widgets);
    var title :- Read(Get(notesConfig, "settings"), "defaultTitle");
    var item := PlaceNew(s, id, DefaultSize, DefaultSize);
    Ok(s.(widgets := s.widgets["notes" := WithNoteInstance(notesConfig, id, NewNote(id, title, stamp, config))],
          layout := s.layout + [item]))
  }

  /** `widgets.notes || defaultNotesConfig`. */
  function NotesConfig(widgets: Props): (r: Value)
    ensures forall k :: Get(Get(r, "instances"), k) == Get(NoteInstances(widgets), k)
  {
    JsOr(Field(widgets, "notes"), Obj(NotesDefault()))
  }

  /**
   * A successful `addNoteInstance` writes the note's configuration under its
   * id, with every key of `config` as given, and changes no other instance,
   * no other key of the notes configuration and no other widget.
   */
  lemma {:induction false} AddNoteInstanceEffect(s: State, config: Props, now: int, stamp: string)
    requires AddNoteInstance(s, config, now, stamp).Ok?
    ensures var w := AddNoteInstance(s, config, now, stamp).value.widgets;
      var id := NoteKey(now);
      && (forall k :: k != "notes" ==> Field(w, k) == Field(s.widgets, k))
      && (forall k :: k != "instances" ==> Get(Field(w, "notes"), k) == Get(NotesConfig(s.widgets), k))
      && Get(NoteInstances(w), id).Obj?
      && (forall k :: k in config ==> Get(Get(NoteInstances(w), id), k) == config[k])
      && (forall k :: k != id ==> Get(NoteInstances(w), k) == Get(NoteInstances(s.widgets), k))
  {
    var id := NoteKey(now);
    var notesConfig := NotesConfig(s.widgets);
    var title := Read(Get(notesConfig, "settings"), "defaultTitle").value;
    var inst := NewNote(id, title, stamp, config);
    var w := s.widgets["notes" := WithNoteInstance(notesConfig, id, inst)];
    assert AddNoteInstance(s, config, now, stamp).value.widgets == w;
    assert Field(w, "notes") == WithNoteInstance(notesConfig, id, inst);
  }

  /** `{id, title, content: '', createdAt, updatedAt, isEditing: true, ...config}`. */
  function NewNote(id: string, title: Value, stamp: string, config: Props): (r: Props)
    ensures forall k :: k in config ==> k in r && r[k] == config[k]
    ensures "id" in r && "title" in r
    ensures "id" !in config ==> r["id"] == Str(id)
    ensures "title" !in config ==> r["title"] == title
  {
    var defaultConfig := map[
      "id" := Str(id), "title" := title, "content" := Str(""),
      "createdAt" := Str(stamp), "updatedAt" := Str(stamp), "isEditing" := Bool(true)];
    Merge(defaultConfig, config)
  }

  /** `{...notesConfig, instances: {...notesConfig.instances, [id]: inst}}`. */
  function WithNoteInstance(notesConfig: Value, id: string, inst: Props): (r: Value)
    ensures r.Obj?
    ensures forall k :: k != "instances" ==> Get(r, k) == Get(notesConfig, k)
    ensures Get(Get(r, "instances"), id) == Obj(inst)
    ensures forall k :: k != id ==> Get(Get(r, "instances"), k) == Get(Get(notesConfig, "instances"), k)
  {
    var instances := Spread(Get(notesConfig, "instances"))[id := Obj(inst)];
    Obj(Spread(notesConfig)["instances" := Obj(instances)])
  }

  /**
   * `updateNoteInstance(instanceId, updates)`: when the instance exists it
   * becomes `{...instance, ...updates, updatedAt}`; otherwise nothing changes.
   */
  function UpdateNoteInstance(s: State, instanceId: string, updates: Props, stamp: string): (r: State)
    ensures !Truthy(Get(NoteInstances(s.widgets), instanceId)) ==> r == s
    ensures Truthy(Get(NoteInstances(s.widgets), instanceId)) ==>
      var inst := Get(NoteInstances(s.widgets), instanceId);
      var inst' := Get(NoteInstances(r.widgets), instanceId);
      && r == s.(widgets := r.widgets)
      && (forall k :: k != "notes" ==> Field(r.widgets, k) == Field(s.widgets, k))
      && (forall k :: k != "instances" ==> Get(Field(r.widgets, "notes"), k) == Get(Field(s.widgets, "notes"), k))
      && (forall k :: k != instanceId ==> Get(NoteInstances(r.widgets), k) == Get(NoteInstances(s.widgets), k))
      && Get(inst', "updatedAt") == Str(stamp)
      && (forall k :: k != "updatedAt" ==> Get(inst', k) == if k in updates then updates[k] else Get(inst, k))
  {
    var notes := Field(s.widgets, "notes");
    var instances := Get(notes, "instances");
    var inst := Get(instances, instanceId);
    if !Truthy(inst) then s
    else
      var inst' := Merge(Spread(inst), updates)["updatedAt" := Str(stamp)];
      s.(widgets := s.widgets["notes" := Obj(Spread(notes)["instances" := Obj(Spread(instances)[instanceId := Obj(inst')])])])
  }

  /**
   * `removeNoteInstance(instanceId)`: when `notes.instances` exists, the
   * instance and its layout entries go; otherwise nothing changes.
   */
  function RemoveNoteInstance(s: State, instanceId: string): (r: State)
    ensures !Truthy(NoteInstances(s.widgets)) ==> r == s
    ensures Truthy(NoteInstances(s.widgets)) ==>
      && r == s.(widgets := r.widgets, layout := r.layout)
      && r.layout == WithoutId(s.layout, instanceId)
      && (forall k :: k != "notes" ==> Field(r.widgets, k) == Field(s.widgets, k))
      && (forall k :: k != "instances" ==> Get(Field(r.widgets, "notes"), k) == Get(Field(s.widgets, "notes"), k))
      && NoteInstances(r.widgets).Obj?
      && Get(NoteInstances(r.widgets), instanceId) == Undefined
      && (forall k :: k != instanceId ==> Get(NoteInstances(r.widgets), k) == Get(NoteInstances(s.widgets), k))
  {
    var notes := Field(s.widgets, "notes");
    var instances := Get(notes, "instances");
    if !Truthy(instances) then s
    else
      s.(widgets := s.widgets["notes" := Obj(Spread(notes)["instances" := Obj(Spread(instances) - {instanceId})])],
         layout := WithoutId(s.layout, instanceId))
  }
}
