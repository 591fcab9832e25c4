# echo-tab grid layout engine in Dafny

echo-tab is a browser new-tab page. Widgets and shortcuts sit on a grid that
is `cols` cells wide and has no height limit, each one an integer rectangle
`{id, x, y, w, h}`. This project models the core of that layout engine:

- the geometry and placement searches of `gridUtils.js`;
- the collision resolver and drag/resize session of the grid container;
- the clamping and pixel geometry of a grid item;
- the store's own placement search, its layout, shortcut, widget-instance
  and note-instance actions, and its `migrate` hook;
- the widget-enable placement of the settings panel.

Around it sit the small helpers the widgets use:

- the widget registry;
- the to-do list;
- the speed-dial key bindings and key size;
- URL normalisation and site names;
- colour parsing and class lists for widget containers;
- the configuration dialog with its dotted-path updates.

The model takes the source's own form:

- Pure `map`/`filter`/spread code becomes datatypes and functions over
  values.
- Loops become methods with `while`/`for` loops and invariants. Each such
  method is proved equal to a declarative function, and the lemmas about
  that function state what the code promises.
- Components and objects whose state changes step by step become classes
  with `modifies` clauses. Examples: `GridLayout.GridSession`,
  `GridItem.GridItemState`, `WidgetRegistry.Registry`, `Todo.TodoWidget`,
  `SpeedDial.SpeedDialWidget` and `WidgetConfig.WidgetConfigDialog`.

JavaScript values that the code reads loosely are modelled by
`JsValues.Value`. This covers configuration objects, saved state and
manifests. The model follows JavaScript's meaning of:

- truthiness and `??`/`||`;
- optional chaining, and the TypeError a property read on `undefined` or
  `null` raises;
- object spread.

Files:

- `wrappers.dfy`, `seqs.dfy`, `strings.dfy`, `parse_int.dfy` and
  `js_values.dfy` hold the shared vocabulary: `Option`/`Result`, `find`,
  `filter`, `trim`, `split`/`join`, `toLowerCase`, `parseInt(s, 16)`, and
  the JavaScript values.
- `grid_utils.dfy` is `gridUtils.js`.
- `grid_layout.dfy` is `GridLayout.jsx`.
- `grid_item.dfy` is `GridItem.jsx`.
- `row_scan.dfy` holds the row-major block scans shared by the store and the
  settings panel.
- `store.dfy` and `store_migrate.dfy` are `useStore.js`.
- `settings_panel.dfy` is `handleToggleWidget`.
- The rest are named after the file they model.

The layout is not overlap-free in general, and no global invariant is
claimed:

- The swap branch can create overlaps (`GridLayout.SwapCanOverlap`).
- A resize never pushes its neighbours.
- The settings panel keeps an occupied default rectangle when its scan fails.
  It also never checks the default rectangle against the column count
  (`SettingsPanel.DefaultIgnoresColumns`).

What each branch gives is proved on its own instead.

## Model

| member | source | states |
|---|---|---|
| GridUtils.OverlapsSymmetric | src/utils/gridUtils.js:8-18 | overlap is symmetric |
| GridUtils.EdgeContactIsNoOverlap | src/utils/gridUtils.js:8-18 | rectangles that only share an edge (x1+w1 == x2 or y1+h1 == y2) do not overlap, in either order |
| GridUtils.OverlapsIffSharedCell | src/utils/gridUtils.js:8-35 | for rectangles of at least one cell, overlapping is equivalent to sharing a cell |
| GridUtils.CellsOfIff | src/utils/gridUtils.js:23-35 | a cell is in the occupied set iff some item covers it |
| GridUtils.OccupiedCells | src/utils/gridUtils.js:23-35 | the nested loops build exactly the set of cells covered by some item |
| GridUtils.ClearIff | src/utils/gridUtils.js:46-53 | the clearance loop's test holds iff no item with an id other than excludeId overlaps the rectangle |
| GridUtils.CanPlaceMeans | src/utils/gridUtils.js:40-56 | canPlaceAt is false when x < 0, y < 0 or x+w > cols; there is no bound on y; otherwise it is true iff no other item overlaps |
| GridUtils.CanPlaceAt | src/utils/gridUtils.js:40-56 | the early-return loop returns exactly the placement predicate |
| GridUtils.OverlappingMembers | src/utils/gridUtils.js:111-124 | the overlapping items are exactly the layout items with another id that overlap the rectangle |
| GridUtils.CanPlaceIff | src/utils/gridUtils.js:40-56 | canPlaceAt holds iff the rectangle is in bounds and findOverlappingItems returns nothing |
| GridUtils.FindOverlappingItems | src/utils/gridUtils.js:111-124 | the push loop returns the overlapping items in layout order |
| GridUtils.ManhattanDistance | src/utils/gridUtils.js:129-131 | the distance is 0 iff the points coincide |
| GridUtils.ManhattanSymmetric | src/utils/gridUtils.js:129-131 | the distance from one point to another equals the distance back |
| GridUtils.ManhattanTriangle | src/utils/gridUtils.js:129-131 | the distance obeys the triangle inequality |
| GridUtils.RingRowFromMembers | src/utils/gridUtils.js:84-99 | one ring row visits exactly the ring's border cells on that row, from the start column rightwards |
| GridUtils.RingRowsMembers | src/utils/gridUtils.js:82-101 | the rows of ring d hold exactly the cells at Chebyshev distance d |
| GridUtils.RingsMembers | src/utils/gridUtils.js:82-101 | the rings from d to 20 hold exactly the cells at Chebyshev distance d..20 |
| GridUtils.RingsSorted | src/utils/gridUtils.js:82-101 | the ring enumeration is sorted: nearer ring first, dy outer, dx inner, both ascending |
| GridUtils.RingsFirst | src/utils/gridUtils.js:82-101 | the ring search returns a fitting cell that every earlier cell in ring order misses |
| GridUtils.RingsNone | src/utils/gridUtils.js:82-101 | the ring search fails when no cell at distance 1..20 fits |
| GridUtils.RingsFound | src/utils/gridUtils.js:82-101 | a cell the ring search returns fits, lies at distance 1..20 and is not the anchor |
| GridUtils.MaxBottom | src/utils/gridUtils.js:104 | the fallback row base is the largest y+h over the whole layout, or 0 for an empty layout |
| GridUtils.NearestEmptyRowPhase | src/utils/gridUtils.js:70-74 | phase one returns the smallest fitting x in startX+1..cols-w on the anchor's row |
| GridUtils.NearestEmptyNextRowPhase | src/utils/gridUtils.js:77-79 | when nothing fits on the anchor's row and (0, startY+1) fits, that cell is the result |
| GridUtils.NearestEmptyRingPhase | src/utils/gridUtils.js:82-101 | after both row phases fail, the result is the first fitting cell in ring order on rings 1..20 |
| GridUtils.NearestEmptyFallback | src/utils/gridUtils.js:104-105 | when all phases fail, the result is (0, MaxBottom+1) |
| GridUtils.SearchSkipsAnchor | src/utils/gridUtils.js:70-101 | a position the search phases return fits (canPlaceAt holds) and is never the anchor itself |
| GridUtils.NearestEmptyFitsOrFallback | src/utils/gridUtils.js:68-106 | the result either fits and is not the anchor, or is the fallback row |
| GridUtils.NearestEmptyIsClear | src/utils/gridUtils.js:68-106 | whichever phase produced it, the result overlaps no item with another id (the fallback row lies below every item) |
| GridUtils.ScanRow | src/utils/gridUtils.js:70-74 | the row loop finds the first fit of the row enumeration |
| GridUtils.ScanRingRow | src/utils/gridUtils.js:84-99 | the dx loop finds the first fitting border cell of one ring row |
| GridUtils.ScanRing | src/utils/gridUtils.js:84-100 | the dy loop finds the first fit among the rows of one ring |
| GridUtils.ScanRings | src/utils/gridUtils.js:82-101 | the distance loop finds the first fit of the ring enumeration |
| GridUtils.FindNearestEmptyPosition | src/utils/gridUtils.js:68-106 | the method returns the first fit of the defined search order, or the fallback |
| GridLayout.MoveTo | src/components/Grid/GridLayout.jsx:95-100 | the plain move sets (x, y) on entries with the id and keeps every other entry, and every id and size |
| GridLayout.Swap | src/components/Grid/GridLayout.jsx:102-118 | the swap moves the mover to the target and the other item to the mover's old cell; all else is kept |
| GridLayout.CalculatePushedLayout | src/components/Grid/GridLayout.jsx:78-156 | the method, with its push loop over a pushedItems set, returns the pushed layout |
| GridLayout.PushedUnknownId | src/components/Grid/GridLayout.jsx:79-80 | an id no entry has leaves baseLayout unchanged |
| GridLayout.PushedKeepsIds | src/components/Grid/GridLayout.jsx:78-156 | every branch keeps the length, and the same ids in the same order |
| GridLayout.PushedKeepsSizes | src/components/Grid/GridLayout.jsx:78-156 | with unique ids, no branch changes any item's w or h |
| GridLayout.PushedPlainMove | src/components/Grid/GridLayout.jsx:95-100 | with nothing in the way, only the mover's x,y change, to the target |
| GridLayout.PushedStayPut | src/components/Grid/GridLayout.jsx:95-100 | dropping an item that overlaps nothing on its own cell yields an equal layout |
| GridLayout.PushedSwap | src/components/Grid/GridLayout.jsx:102-118 | with exactly one same-sized item in the way, the mover goes to the target, that item to the mover's original cell, and nothing else changes |
| GridLayout.SwapCanOverlap | src/components/Grid/GridLayout.jsx:102-118 | a=(0,0,2,2) and b=(2,0,2,2), with a moved to x=1: b goes to (0,0) and the two overlap |
| GridLayout.PushFromPlaces | src/components/Grid/GridLayout.jsx:130-152 | the loop step for an overlapped item whose id was not pushed before moves the entry findIndex gives for it to the nearest empty position around the item's own cell, searched in the layout the earlier steps left, and no later step moves it again |
| GridLayout.PushedPushCase | src/components/Grid/GridLayout.jsx:121-155 | in the push branch the mover lands on the target, every item not in its way keeps its position, and each item in its way whose id was not pushed before goes to the nearest empty position around its own cell, searched in the layout the earlier pushes left |
| GridLayout.PushedDisjoint | src/components/Grid/GridLayout.jsx:120-155 | if the base items other than the mover are pairwise non-overlapping, the pushed layout is pairwise non-overlapping |
| GridLayout.Resized | src/components/Grid/GridLayout.jsx:201-230 | resizing rewrites only w,h of entries with the id; ids, positions and other entries are kept |
| GridLayout.ContainerSize | src/components/Grid/GridLayout.jsx:33-43 | the container's width and height are the pixel offsets of column cols and row rows |
| GridLayout.ItemInsideContainer | src/components/Grid/GridLayout.jsx:33-43 | an item inside the columns ends at least one gap before the container's right edge |
| GridLayout.GridSession.constructor | src/components/Grid/GridLayout.jsx:24-27 | a fresh session has no preview, no snapshot and no active ids |
| GridLayout.GridSession.DragStart | src/components/Grid/GridLayout.jsx:159-163 | drag start records the layout as snapshot and preview, and sets the dragged id |
| GridLayout.GridSession.DragMove | src/components/Grid/GridLayout.jsx:166-175 | the preview is the pushed layout computed from the snapshot (or the store layout), never from the last preview |
| GridLayout.GridSession.DragEnd | src/components/Grid/GridLayout.jsx:178-191 | the commit writes the pushed layout computed from the snapshot, then clears preview, snapshot and dragged id |
| GridLayout.GridSession.ResizeStart | src/components/Grid/GridLayout.jsx:194-198 | resize start records the layout as snapshot and preview, and sets the resized id |
| GridLayout.GridSession.ResizeMove | src/components/Grid/GridLayout.jsx:201-212 | the preview is the snapshot with only the target's w,h rewritten; nothing is pushed |
| GridLayout.GridSession.ResizeEnd | src/components/Grid/GridLayout.jsx:215-230 | the commit writes the resized snapshot and clears the session |
| GridItem.RoundDiv | src/components/Grid/GridItem.jsx:64-65 | Math.round(delta/pitch) for integer pixels is the integer r with 2pr <= 2d+p < 2p(r+1), i.e. floor((2d+p)/(2p)) |
| GridItem.RoundDivCells | src/components/Grid/GridItem.jsx:64-65 | a whole number of cells in pixels converts back to that number of cells |
| GridItem.RoundDivMonotone | src/components/Grid/GridItem.jsx:64-65 | rounding is monotone in the pixel delta |
| GridItem.ClampX | src/components/Grid/GridItem.jsx:72 | the clamped x is >= 0, ends inside the columns when w <= cols, and is the input when that was already inside |
| GridItem.ClampY | src/components/Grid/GridItem.jsx:73 | the clamped y is >= 0 with no upper bound, and is the input when that is >= 0 |
| GridItem.ClampW | src/components/Grid/GridItem.jsx:148 | the clamped width is >= 1, ends inside the columns when x < cols, and is the input when that was valid |
| GridItem.ClampH | src/components/Grid/GridItem.jsx:149 | the clamped height is >= 1, and is the input when that is >= 1 |
| GridItem.DragTargetInGrid | src/components/Grid/GridItem.jsx:60-73 | a drag target has x,y >= 0, and x+w <= cols whenever w <= cols |
| GridItem.DragTargetAtRest | src/components/Grid/GridItem.jsx:60-73 | the mouse back where the drag began gives back the starting cell |
| GridItem.ResizeTargetInGrid | src/components/Grid/GridItem.jsx:136-149 | a resize target is at least 1x1, and x+w <= cols whenever x < cols |
| GridItem.GridItemState.constructor | src/components/Grid/GridItem.jsx:28-31 | no anchors, and neither dragging nor resizing |
| GridItem.GridItemState.MouseDown | src/components/Grid/GridItem.jsx:34-52 | ignored outside edit mode; otherwise records the anchor, starts the drag and notifies the parent |
| GridItem.GridItemState.MouseMove | src/components/Grid/GridItem.jsx:54-79 | reports the clamped target only when dragging with an anchor and the target differs from the current (x,y) |
| GridItem.GridItemState.MouseUp | src/components/Grid/GridItem.jsx:81-107 | ends a drag and commits the clamped target (the item's own cell, clamped, without an anchor) |
| GridItem.GridItemState.ResizeMouseDown | src/components/Grid/GridItem.jsx:110-128 | ignored outside edit mode; otherwise records the anchor, starts the resize and notifies the parent |
| GridItem.GridItemState.ResizeMouseMove | src/components/Grid/GridItem.jsx:130-155 | reports the clamped size only when resizing with an anchor and the size differs from the current (w,h) |
| GridItem.GridItemState.ResizeMouseUp | src/components/Grid/GridItem.jsx:157-183 | ends a resize and commits the clamped size |
| GridItem.AdjacentItemsOneGapApart | src/components/Grid/GridItem.jsx:212-221 | horizontally adjacent items (x2 = x1+w1) are exactly one gap apart in pixels |
| GridItem.ExtentAdditive | src/components/Grid/GridItem.jsx:219-221 | two side-by-side blocks and the gap between them are as wide as one block of the summed width |
| GridItem.OffsetStep | src/components/Grid/GridItem.jsx:215-217 | one cell further is one pitch (cellSize + gap) further |
| RowScan.RowsFirst | src/store/useStore.js:18-33 | the row-major scan returns the first fitting candidate in row-major order |
| RowScan.RowsNone | src/store/useStore.js:18-33 | the row-major scan fails when no candidate in range fits |
| RowScan.RowsFound | src/store/useStore.js:18-33 | a candidate the scan returns is in range and fits, and no earlier candidate fits |
| RowScan.ScanBlock | src/store/useStore.js:22-28 | the dy/dx loops with the canPlace flag decide exactly whether the block holds no occupied cell |
| RowScan.ScanPanelBlock | src/components/Settings/SettingsPanel.jsx:127-136 | the panel's block loops also clear the flag on a cell at or past column cols |
| Store.FindEmptyPosition | src/store/useStore.js:5-36 | the occupied set and the nested loops return the first free block in rows 5..99, else (0,5) |
| Store.EmptyPositionIsFirstSlot | src/store/useStore.js:18-33 | when a slot exists, the result is the first (y,x) in row-major order with 5 <= y < 100 and 0 <= x <= cols-w whose block has no occupied cell |
| Store.EmptyPositionNoSlot | src/store/useStore.js:35 | with no slot the result is (0,5) |
| Store.EmptyPositionBelowReserved | src/store/useStore.js:5-36 | the result never lies above row 5 |
| Store.EmptyPositionClear | src/store/useStore.js:18-33 | a found slot overlaps no existing layout item (items of at least one cell) |
| Store.PlaceNew | src/store/useStore.js:5-36 | an add action's new entry has the given id and size at the findEmptyPosition result |
| Store.WithoutIdMeans | src/store/useStore.js:367-370 | removing by id keeps exactly the entries with other ids, and their order |
| Store.UpdateLayout | src/store/useStore.js:354-366 | an existing id gets its first entry rewritten at the position; a new id is appended; nothing else changes |
| Store.UpdateLayoutThenFind | src/store/useStore.js:354-366 | afterwards the first entry with that id is at the position, and the length grows only for a new id |
| Store.UpdateLayoutIdempotent | src/store/useStore.js:354-366 | writing the same position twice equals writing it once |
| Store.RemoveFromLayout | src/store/useStore.js:367-370 | the layout keeps exactly the entries without that id; no entry with it is left |
| Store.AddShortcut | src/store/useStore.js:51-65 | the shortcut gets id now, and one 1x1 entry shortcut-now is appended at findEmptyPosition; the existing entries are untouched |
| Store.RemoveShortcut | src/store/useStore.js:66-70 | the shortcuts with that id and the layout entries shortcut-id are removed, the other shortcuts keep their order, and nothing else changes |
| Store.RemoveShortcutUndoesAdd | src/store/useStore.js:51-70 | removing a freshly added shortcut with an unused id restores the state |
| Store.AddShortcutPlacesClear | src/store/useStore.js:51-65 | a new shortcut placed in a found slot overlaps no existing entry |
| Store.AddWidgetInstance | src/store/useStore.js:217-242 | one instance and one entry of size `size` (default 4x4) are appended at findEmptyPosition; nothing else changes |
| Store.UpdateWidgetInstance | src/store/useStore.js:245-264 | an unknown id leaves the state unchanged; otherwise only the matching instance is shallow-merged and restamped |
| Store.RemoveWidgetInstance | src/store/useStore.js:267-271 | the instances and the layout entries with that id are removed; the rest keep their order |
| Store.RemoveWidgetInstanceUndoesAdd | src/store/useStore.js:217-271 | removing a freshly added instance with an unused id restores the state |
| Store.UpdateWidget | src/store/useStore.js:114-120 | widgets[name] becomes a shallow merge in which updated keys overwrite and the rest are preserved; other widgets are untouched |
| Store.SetWidgetStyles | src/store/useStore.js:320-323 | a shallow merge into widgetStyles |
| Store.SetGridConfig | src/store/useStore.js:347-350 | a shallow merge into gridConfig |
| Store.MergesIdempotent | src/store/useStore.js:114-120 | each of the three merges applied twice equals applying it once |
| Store.AddNoteInstance | src/store/useStore.js:123-164 | fails exactly when notesConfig.settings is missing; otherwise appends one 4x4 note entry at findEmptyPosition |
| Store.AddNoteInstanceEffect | src/store/useStore.js:123-164 | a successful add stores the note under its id, with config's keys as given, and changes no other instance or widget |
| Store.NotesConfig | src/store/useStore.js:128-132 | widgets.notes, or the default notes config, keeps the saved instances visible |
| Store.NewNote | src/store/useStore.js:134-143 | the new note carries every key of config as given, and the generated id and default title where config has none |
| Store.WithNoteInstance | src/store/useStore.js:148-158 | the notes config with the instance set under its id; every other key and instance is kept |
| Store.UpdateNoteInstance | src/store/useStore.js:166-190 | an unknown instance leaves the state unchanged; otherwise only that instance is merged and restamped |
| Store.RemoveNoteInstance | src/store/useStore.js:192-212 | without notes.instances nothing changes; otherwise that instance and its layout entries are removed and everything else is kept |
| Migration.MigratedUnit | src/store/useStore.js:397-401 | unit 'c' becomes 'celsius' and 'f' becomes 'fahrenheit'; other units are unchanged |
| Migration.DefaultField | src/store/useStore.js:378-420 | `if (!v[k]) v[k] = d` gives a falsy property its default, keeps the other keys, and throws on any value that is not a plain object (arrays included, see Left out) |
| Migration.RenameUnit | src/store/useStore.js:397-401 | only the unit of the weather object is rewritten |
| Migration.MigrateWeatherObject | src/store/useStore.js:378-406 | the weather object gets a default location and city list and the long unit names, loses apiKey and city, and keeps every other property |
| Migration.MigrateWeather | src/store/useStore.js:378-406 | the weather step migrates a truthy weather object as above, touches nothing outside widgets.weather, and fails exactly on a truthy weather value that is not a plain object (arrays included, see Left out) |
| Migration.MigrateGrid | src/store/useStore.js:409-420 | the grid step deletes width/height, sets a missing or zero cellSize to 96, keeps the other grid properties and touches nothing else |
| Migration.MigrateNotes | src/store/useStore.js:423-434 | a missing widgets becomes {}, and a missing notes gets the default notes config |
| Migration.MigrateSpeedDial | src/store/useStore.js:437-451 | speedDial is renamed to speeddial, then a missing one is defaulted |
| Migration.MigrateWidgetDefaults | src/store/useStore.js:423-451 | after the notes and speed-dial steps the notes configuration is kept or defaulted, a legacy speedDial is moved to speeddial or else speeddial is kept or defaulted, and other widgets are kept |
| Migration.ConvertLegacy | src/store/useStore.js:454-478 | a legacy class name without a colour becomes its mapped colour and is deleted; otherwise the background is unchanged |
| Migration.MigrateBackground | src/store/useStore.js:454-478 | the background step converts base and baseDark and touches nothing else |
| Migration.MigrateWeatherAndGrid | src/store/useStore.js:378-420 | the weather and grid steps in order: each saved object present is migrated, and all else is kept |
| Migration.MigrateWidgetsAndStyles | src/store/useStore.js:423-478 | the notes, speed-dial and background steps in order: the widget defaults are added, the background converted, and all else kept |
| Migration.Migrate | src/store/useStore.js:376-481 | fails exactly when a saved part it writes into is not a plain object; otherwise the weather object, the grid configuration, the notes and speed-dial configurations and the background are each migrated as their steps state, and every other saved property, widget and widget style is unchanged |
| SettingsPanel.DefaultRect | src/components/Settings/SettingsPanel.jsx:89-97 | the default rectangle is never empty; unknown ids get {0,0,4,4} |
| SettingsPanel.DefaultOccupied | src/components/Settings/SettingsPanel.jsx:111-120 | the isOccupied loops decide exactly whether some cell of the default rectangle is occupied |
| SettingsPanel.ScanPanel | src/components/Settings/SettingsPanel.jsx:123-142 | the 20-row scan with its found/canPlace flags returns the first accepted block, else the default |
| SettingsPanel.HandleToggleWidget | src/components/Settings/SettingsPanel.jsx:80-148 | the handler computes the toggled state |
| SettingsPanel.ToggleWidgetEffect | src/components/Settings/SettingsPanel.jsx:80-148 | the enabled flag is always written; the layout changes only for an enabled widget without an entry, which is upserted at the placement |
| SettingsPanel.PlacementWhenFree | src/components/Settings/SettingsPanel.jsx:111-123 | a default rectangle with no occupied cell is used unchanged |
| SettingsPanel.PlacementScanned | src/components/Settings/SettingsPanel.jsx:123-141 | an occupied default moves to the first (y,x) in row-major order with y < 20 and x+w <= cols whose block is free, keeping w,h |
| SettingsPanel.PlacementNoSlot | src/components/Settings/SettingsPanel.jsx:100-142 | if nothing fits in 20 rows, the default rectangle is kept |
| SettingsPanel.ScannedPlacementClear | src/components/Settings/SettingsPanel.jsx:123-141 | a scanned placement lies inside the columns and overlaps no existing entry |
| SettingsPanel.DefaultIgnoresColumns | src/components/Settings/SettingsPanel.jsx:89-123 | the default is not column-checked: weather goes to x=4, w=5 on an empty 6-column grid |
| WidgetRegistry.Registry.constructor | src/widgets/core/WidgetRegistry.js:6-8 | a new registry is empty |
| WidgetRegistry.Registry.Has | src/widgets/core/WidgetRegistry.js:63-65 | has(id) iff the id is registered |
| WidgetRegistry.Registry.GetLoader | src/widgets/core/WidgetRegistry.js:37-43 | fails exactly when the id is not registered; otherwise returns its loader |
| WidgetRegistry.Registry.GetManifest | src/widgets/core/WidgetRegistry.js:50-56 | fails exactly when the id is not registered; otherwise returns its manifest |
| WidgetRegistry.Registry.GetAll | src/widgets/core/WidgetRegistry.js:71-73 | lists the records in insertion order, each under its own id |
| WidgetRegistry.Registry.Register | src/widgets/core/WidgetRegistry.js:16-30 | afterwards has(id) holds and getManifest/getLoader return m and l; other ids are unchanged; a re-registered id keeps its place; the log line throws exactly for a nullish manifest |
| WidgetRegistry.Registry.Unregister | src/widgets/core/WidgetRegistry.js:104-109 | removes only that id, and is a no-op when it is absent |
| WidgetRegistry.Registry.Clear | src/widgets/core/WidgetRegistry.js:114-117 | afterwards getAll is empty and has is false for every id |
| WidgetRegistry.FilterCheckedMeans | src/widgets/core/WidgetRegistry.js:79-98 | a filter whose test may throw throws exactly when the test throws on some element; otherwise it is the plain filter |
| WidgetRegistry.GetAllDistinctIds | src/widgets/core/WidgetRegistry.js:17-27 | getAll never lists an id twice |
| WidgetRegistry.TypeFilterMeans | src/widgets/core/WidgetRegistry.js:79-89 | getBuiltin/getExternal list, in order, exactly the records of that manifest.type, and throw exactly when some manifest is missing |
| WidgetRegistry.BuiltinExternalDisjoint | src/widgets/core/WidgetRegistry.js:79-89 | no record is both builtin and external |
| WidgetRegistry.SearchByTagMeans | src/widgets/core/WidgetRegistry.js:96-98 | searchByTag lists, in order, the records the tag test accepts, and throws exactly when the test throws on one |
| Todo.Toggled | src/widgets/builtin/todo/Todo.jsx:51-55 | completed flips only on items with the id; length and order are unchanged |
| Todo.ToggleTwice | src/widgets/builtin/todo/Todo.jsx:51-55 | toggling twice restores the list |
| Todo.ReorderedIsPermutation | src/widgets/builtin/todo/Todo.jsx:88-100 | the drag reorder is a permutation of the items |
| Todo.ReorderedMovesDragged | src/widgets/builtin/todo/Todo.jsx:88-100 | with both present, the dragged item lands at the target's original index, and the others keep their relative order |
| Todo.FilterKeepsOrder | src/widgets/builtin/todo/Todo.jsx:58-60 | delete and clear-completed keep the kept items in their original order |
| Todo.DeleteMeans | src/widgets/builtin/todo/Todo.jsx:58-60 | delete keeps exactly the items with another id |
| Todo.CountsAddUp | src/widgets/builtin/todo/Todo.jsx:115-117 | activeCount + completedCount = totalCount, and the active count is the number of unfinished items |
| Todo.TodoWidget.constructor | src/widgets/builtin/todo/Todo.jsx:20-24 | the configured items, an empty input and no drag state |
| Todo.TodoWidget.ActiveCount | src/widgets/builtin/todo/Todo.jsx:115-117 | the active count is the number of unfinished items |
| Todo.TodoWidget.HandleAdd | src/widgets/builtin/todo/Todo.jsx:36-48 | a blank trimmed input does nothing; otherwise one unfinished item with the trimmed text is appended and the input cleared |
| Todo.TodoWidget.HandleToggle | src/widgets/builtin/todo/Todo.jsx:51-55 | the items become the toggled list |
| Todo.TodoWidget.HandleDelete | src/widgets/builtin/todo/Todo.jsx:58-60 | the items become those with another id |
| Todo.TodoWidget.ClearCompleted | src/widgets/builtin/todo/Todo.jsx:232 | the items become the unfinished ones, as many as the active count |
| Todo.TodoWidget.HandleDragStart | src/widgets/builtin/todo/Todo.jsx:70-75 | the dragged id is set |
| Todo.TodoWidget.HandleDragOver | src/widgets/builtin/todo/Todo.jsx:78-85 | only another item under a drag becomes the target, so the target is never the dragged item |
| Todo.TodoWidget.HandleDragLeave | src/widgets/builtin/todo/Todo.jsx:107-112 | leaving the element clears the target |
| Todo.TodoWidget.HandleDragEnd | src/widgets/builtin/todo/Todo.jsx:88-104 | reorders when both ids are set and differ; the drag state is always reset |
| SpeedDial.LetterKeyIff | src/widgets/builtin/speeddial/SpeedDial.jsx:113-114 | the key filter accepts exactly single ASCII letters of either case |
| SpeedDial.KeyboardLayoutRows | src/widgets/builtin/speeddial/SpeedDial.jsx:7-11 | the layout has rows of 10, 9 and 7 keys, 26 in all |
| SpeedDial.LayoutKeysAreLetters | src/widgets/builtin/speeddial/SpeedDial.jsx:7-11 | every layout key is one upper-case letter that the filter accepts |
| SpeedDial.LayoutKeysDistinct | src/widgets/builtin/speeddial/SpeedDial.jsx:7-11 | no layout key occurs twice |
| SpeedDial.WithScheme | src/widgets/builtin/speeddial/SpeedDial.jsx:172-175 | the saved URL starts with http:// or https:// (case-sensitive), is the input when it already did, and ends with the input |
| SpeedDial.WithSchemeIdempotent | src/widgets/builtin/speeddial/SpeedDial.jsx:172-175 | adding the scheme twice equals adding it once |
| SpeedDial.SavedBindingsMeans | src/widgets/builtin/speeddial/SpeedDial.jsx:169-180 | only the lower-cased key changes; a blank URL deletes it; otherwise it holds the trimmed URL with its scheme |
| SpeedDial.RemovedBindingsMeans | src/widgets/builtin/speeddial/SpeedDial.jsx:200-202 | removeBinding deletes exactly the lower-cased key, as saving a blank URL does |
| SpeedDial.PrefillAsWritten | src/widgets/builtin/speeddial/SpeedDial.jsx:160-163 | the dialog prefill as written looks up the key as displayed |
| SpeedDial.PrefillAsWrittenMissesBinding | src/widgets/builtin/speeddial/SpeedDial.jsx:160-176 | a URL saved for Q is stored under q, and the prefill as written opens blank |
| SpeedDial.ReopenedBlankDialogErasesBinding | src/widgets/builtin/speeddial/SpeedDial.jsx:160-180 | saving the blank dialog opened on Q over a binding stored under q deletes that binding |
| SpeedDial.Prefill | src/widgets/builtin/speeddial/SpeedDial.jsx:160-163 | the prefill looks up the lower-cased key |
| SpeedDial.PrefillAfterSave | src/widgets/builtin/speeddial/SpeedDial.jsx:160-180 | reopening a key just saved shows the saved URL, and nothing after a blank save |
| SpeedDial.KeySize | src/widgets/builtin/speeddial/SpeedDial.jsx:72-85 | the key size always lies in [30, 80] |
| SpeedDial.KeySizeFits | src/widgets/builtin/speeddial/SpeedDial.jsx:72-85 | above 30, ten keys and nine gaps fit the width and three keys and two gaps the height; below 80, one pixel more would not fit |
| SpeedDial.SpeedDialWidget.constructor | src/widgets/builtin/speeddial/SpeedDial.jsx:26-33 | the configured bindings, not editing, no key pressed |
| SpeedDial.SpeedDialWidget.UpdateKeySize | src/widgets/builtin/speeddial/SpeedDial.jsx:59-85 | the key size becomes the clamped size |
| SpeedDial.SpeedDialWidget.ToggleEditing | src/widgets/builtin/speeddial/SpeedDial.jsx:290 | edit mode flips |
| SpeedDial.SpeedDialWidget.GlobalEditModeChanged | src/widgets/builtin/speeddial/SpeedDial.jsx:36-42 | leaving global edit mode also leaves the widget's edit mode and closes the dialog |
| SpeedDial.SpeedDialWidget.StartEditKey | src/widgets/builtin/speeddial/SpeedDial.jsx:160-163 | the dialog opens on the key as displayed, prefilled with what is bound under that same key, so blank for a binding stored lower-cased |
| SpeedDial.SpeedDialWidget.SaveKeyBinding | src/widgets/builtin/speeddial/SpeedDial.jsx:166-191 | a no-op without an edit key; otherwise the bindings are saved and editingKey/editingUrl cleared |
| SpeedDial.SpeedDialWidget.CancelEdit | src/widgets/builtin/speeddial/SpeedDial.jsx:194-197 | the dialog closes and the bindings stay |
| SpeedDial.SpeedDialWidget.RemoveBinding | src/widgets/builtin/speeddial/SpeedDial.jsx:200-210 | the bindings lose the lower-cased key |
| SpeedDial.SpeedDialWidget.KeyDown | src/widgets/builtin/speeddial/SpeedDial.jsx:107-119 | a letter key outside edit mode and text fields is highlighted (lower-cased); others change nothing |
| SpeedDial.SpeedDialWidget.KeyUp | src/widgets/builtin/speeddial/SpeedDial.jsx:121-137 | a letter key clears the highlight and opens a URL exactly when a non-empty binding exists |
| Favicon.NormalizeUrl | src/utils/favicon.js:63-72 | empty input gives ''; the result of a non-empty input starts, case-insensitively, with http:// or https://; the input is kept as a suffix |
| Favicon.NormalizeKeepsScheme | src/utils/favicon.js:67-71 | a non-empty input is returned unchanged iff it already has a scheme |
| Favicon.NormalizeIdempotent | src/utils/favicon.js:63-72 | normalizeUrl is idempotent |
| Favicon.StripWww | src/utils/favicon.js:30 | exactly one leading www. is stripped |
| Favicon.WebsiteNameIsLabel | src/utils/favicon.js:30-39 | the name is the second-to-last label with two or more labels, else the stripped hostname; it never contains a dot |
| ParseInt.ParseHexPair | src/widgets/core/widgetStyles.js:26-28 | parseInt of two hex digits in base 16 is their byte value, in [0, 255] |
| ParseInt.ParsePairIsParseInt | src/widgets/core/widgetStyles.js:26-28 | the two-character read of a channel agrees with the general base-16 parseInt on every pair of characters |
| WidgetStyles.NormalizedHex | src/widgets/core/widgetStyles.js:19 | the normalised hex starts with # |
| WidgetStyles.HexToRgba | src/widgets/core/widgetStyles.js:12-36 | non-string or empty input, or a normalised length other than 7, yields white; alpha is passed on |
| WidgetStyles.Channels | src/widgets/core/widgetStyles.js:31-35 | any NaN channel yields white; otherwise the three parsed channels |
| WidgetStyles.FromHexPairs | src/widgets/core/widgetStyles.js:26-28 | six hex digits after # are read pair by pair |
| WidgetStyles.HexToRgbaChannels | src/widgets/core/widgetStyles.js:19-35 | six hex digits, with or without #, give r,g,b in [0,255] equal to the three pairs |
| WidgetStyles.HexToRgbaOfColorHex | src/widgets/core/widgetStyles.js:12-36 | writing a colour as #rrggbb and reading it back gives the colour |
| WidgetStyles.Resolve | src/widgets/core/widgetStyles.js:58-63 | showBackground defaults to true; showBorder, showShadow and showPadding default to it |
| WidgetStyles.BackgroundClasses | src/widgets/core/widgetStyles.js:73-85 | only background classes are pushed by the background branch |
| WidgetStyles.ContainerClassesStart | src/widgets/core/widgetStyles.js:65-68 | the class list always starts with w-full, h-full |
| WidgetStyles.NoBackgroundClasses | src/widgets/core/widgetStyles.js:73-90 | without a shown background there are no padding, rounded, shadow or backdrop classes |
| WidgetStyles.BackgroundClassesIff | src/widgets/core/widgetStyles.js:73-85 | rounded iff shown background; padding and shadow iff also their options; backdrop-blur iff also blur is not 'none' |
| WidgetStyles.BorderClassesLast | src/widgets/core/widgetStyles.js:93-99 | the border classes end the list iff showBorder and border.enabled |
| WidgetStyles.ContainerStyleOf | src/widgets/core/widgetStyles.js:49-105 | the pushed classes, their joined className, and a backgroundColor exactly with a shown background, from colorDark iff isDark |
| WidgetStyles.InnerRadiusSteps | src/widgets/core/widgetStyles.js:205-214 | lg..3xl go one step down, none/sm/md/full stay, and an unknown radius maps to lg |
| WidgetStyles.CardClasses | src/widgets/core/widgetStyles.js:194-202 | the card's radius class is the inner radius |
| WidgetStyles.InputClasses | src/widgets/core/widgetStyles.js:176-187 | the input's radius class is the inner radius |
| WidgetConfig.SetPath | src/components/WidgetConfig/WidgetConfig.jsx:128-145 | the new config is an object holding the old top-level keys and the path's first key |
| WidgetConfig.SetPathAt | src/components/WidgetConfig/WidgetConfig.jsx:128-145 | at depth d along the path, the new config is the old sub-object with the rest of the path written |
| WidgetConfig.SetPathLeaf | src/components/WidgetConfig/WidgetConfig.jsx:143 | the leaf at the path is the written value |
| WidgetConfig.SetPathCreatesIntermediates | src/components/WidgetConfig/WidgetConfig.jsx:135-141 | every level above the leaf is an object holding the old keys and the next key; a missing or falsy intermediate becomes {} with just that key |
| WidgetConfig.SetPathKeepsSiblings | src/components/WidgetConfig/WidgetConfig.jsx:132-141 | at every level, every key other than the next one keeps its old value |
| WidgetConfig.SetPathTopLevel | src/components/WidgetConfig/WidgetConfig.jsx:146-149 | a key without '.' sets that key and leaves all other top-level keys unchanged |
| WidgetConfig.ReadPath | src/components/WidgetConfig/WidgetConfig.jsx:104-109 | the read loop succeeds iff no object on the path is undefined or null, and then yields the value at the path |
| WidgetConfig.CopyLevels | src/components/WidgetConfig/WidgetConfig.jsx:132-141 | the descent holds at level j a copy of the old object j keys down ({} for a falsy one) |
| WidgetConfig.WritePath | src/components/WidgetConfig/WidgetConfig.jsx:112-123 | the write loops produce exactly the config with the value written at the path |
| WidgetConfig.NextConfig | src/components/WidgetConfig/WidgetConfig.jsx:100-150 | a plain value is written at the path; a function-valued update fails iff the path runs through undefined/null, and otherwise stores f(old value) at the path |
| WidgetConfig.PreviewSize | src/components/WidgetConfig/WidgetConfig.jsx:48-61 | 600x400 without a layout entry or grid config; otherwise w*cellSize+(w-1)*gap by h*cellSize+(h-1)*gap |
| WidgetConfig.PreviewMatchesGrid | src/components/WidgetConfig/WidgetConfig.jsx:48-61 | the preview is as large as the block the grid draws: its left edge, width and one gap reach the next column |
| WidgetConfig.InstanceOf | src/components/WidgetConfig/WidgetConfig.jsx:41 | the first instance in the store with the widget's id, and nothing exactly when there is no widgetId or no instance has it |
| WidgetConfig.WidgetConfigDialog.constructor | src/components/WidgetConfig/WidgetConfig.jsx:38 | the draft starts as {} |
| WidgetConfig.WidgetConfigDialog.LoadInstance | src/components/WidgetConfig/WidgetConfig.jsx:71-75 | a found instance's config (or {}) becomes the draft |
| WidgetConfig.WidgetConfigDialog.UpdateConfig | src/components/WidgetConfig/WidgetConfig.jsx:100-150 | the draft becomes the next config; a throwing update leaves it unchanged |
| WidgetConfig.WidgetConfigDialog.HandleSave | src/components/WidgetConfig/WidgetConfig.jsx:92-97 | a no-op without a widgetId; otherwise the draft is merged into the instance's config and the dialog closes |

## Findings

| source | as written | input that shows it | evidently intended | confidence | as-written member | corrected member |
|---|---|---|---|---|---|---|
| src/widgets/builtin/speeddial/SpeedDial.jsx:160-163 | `startEditKey` prefills the dialog with `bindings[key]`, using the upper-case key the keyboard displays, but `saveKeyBinding` stores the URL under `key.toLowerCase()` (line 176) | save `example.com` for key `Q`, then open `Q` again: the dialog shows an empty URL although `q` is bound | look up `bindings[key.toLowerCase()]`, as the key handlers do | not executed | SpeedDial.PrefillAsWrittenMissesBinding | SpeedDial.PrefillAfterSave |

`SpeedDial.SpeedDialWidget.StartEditKey` models the prefill as written;
`SpeedDial.ReopenedBlankDialogErasesBinding` shows that saving the dialog it
opens deletes the binding. `SpeedDial.Prefill` is the corrected prefill.

## Left out

- React itself is not modelled: state batching, `useCallback`/`useMemo`, effects and their dependency lists, and the effect that syncs the store's layout into the grid. Each handler is one atomic state change.
- zustand's `persist` middleware and its storage are not modelled, nor the `console.warn`/`console.log` calls (only the TypeError a log line can raise is kept).
- `Date.now()` ids and ISO time stamps are parameters (`now`, `stamp`).
- Numbers are integers. `NaN` appears only where the code tests for it or where a missing field turns arithmetic into `NaN` (`ToNumber` gives `None`). Numeric strings, floating-point pixel deltas and the `alpha / 100` formatting of `hexToRgba` are not modelled; `alpha` is carried as the integer it arrives as.
- Spreading a string or an array gives `{}` in the model; in JavaScript it gives index keys. Prototype keys such as `toString` are not modelled.
- GridItem: `window.event` and the document listener wiring are abstracted. The mouse position at mouse-up is a parameter, and the grid's `cellSize + gap` is assumed positive (`HasPitch`).
- Layout items are assumed to have the shape `{id, x, y, w, h}` with integer fields; entries with other fields are not modelled.
- GridLayout: the `rows` property used by `containerSize` is an input, like `cols`.
- Migration.Migrate: the source edits the saved object in place. The model passes the edited top-level properties from step to step, so aliasing between saved parts is not modelled. Its unused `version` argument is left out.
- JsValues.Get and JsValues.Assign: a JavaScript array is treated as a non-object. Property reads on an array give `undefined` and property writes throw, while JavaScript reads an array's elements and extra properties and accepts writes to it. Every member built on them inherits this, as the next lines say.
- Migration.DefaultField: throws on an array, which JavaScript writes the default into.
- Migration.MigrateWeather: fails on a truthy array weather value, which the source migrates by adding the properties to the array.
- Migration.Migrate: fails when `widgets`, `widgets.weather` or `gridConfig` is an array, where the source writes into the array and succeeds.
- WidgetConfig.ReadPath: a path that indexes into an array reads `undefined` rather than the element.
- Migration.ColorMap: JavaScript's coercion of a non-string key in `colorMap[bg.base]` is not modelled; only string keys look up a colour.
- The store's other setters are not part of this model (theme, wallpaper, search engine and similar one-field setters), since no layout rule depends on them.
- WidgetRegistry: the `loaded`/`component` fields the lazy loader would update are stored but never changed, because the loader cache is not part of this model. A loader is represented by what it imports.
- Todo.Reordered: on an empty list the source's splices give `[undefined]`; the model returns `[]` (unreachable, since both ids come from rendered items).
- SpeedDial: binding values are strings. `Lower` maps ASCII letters only. JavaScript's `toLowerCase` also maps some other characters to ASCII letters, such as the Kelvin sign U+212A to `k`, so the model rejects a few keys that the source's letter filter accepts.
- SpeedDial: the ResizeObserver that measures the container, `window.open`, and `getDomain` for the key labels are left out. The container's width and height are parameters, and `KeyUp` returns the URL it would open.
- SpeedDial: the store write of `updateWidget`/`updateWidgetInstance` is folded into the widget's own `bindings` field. Which of the instance config and the global config is the source is not modelled.
- WidgetStyles: `Styles` has the shape of the store's default `widgetStyles`. The text, button and active-background class helpers are one-line template strings and are not modelled.
- Strings are sequences of characters; JavaScript's UTF-16 lengths are not modelled.
- favicon.js: URL parsing by the `URL` constructor is not modelled; the hostname is the input of `WebsiteName`. `getFaviconUrl` and `isValidUrl` are wrappers around that constructor and are left out.
- WidgetConfig: the lazy-component cache, the manifest lookup, the ESC handler and all rendering are left out.
- WidgetConfig.WritePath: the source writes through the `current` references into fresh copies top-down. The model makes the copies in one pass and links them bottom-up, which gives the same value because every object on the path is a fresh copy.
- WidgetConfig.WidgetConfigDialog.UpdateConfig: when a function-valued update throws, React propagates the error; the model reports it and leaves the draft unchanged.
- WidgetConfig: `typeof value === 'function'` becomes the `Update` datatype. The `cellSize`/`gap` reads of `previewSize` go through `ToNumber`, so a non-numeric value gives `None` (NaN).
- All JSX and rendering is left out.
