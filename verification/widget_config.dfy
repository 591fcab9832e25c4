/**
 * The per-instance configuration dialog (src/components/WidgetConfig/WidgetConfig.jsx):
 * the draft `config` it edits, `updateConfig(key, value)` with its
 * dot-separated paths and its function-valued updates, the preview size
 * computed from the widget's layout entry and the grid configuration, and
 * `handleSave`, which writes the draft back to the store.
 *
 * Objects are values here: `{...prev}` and every `{...current[k]}` on the
 * path are fresh copies in the source, so building new values and never
 * touching `prev` is what the source does too.
 */
module WidgetConfig {
  import opened Wrappers
  import opened Seqs
  import opened Strings
  import opened JsValues
  import opened GridUtils
  import GridItem
  import Store

  // ---------------------------------------------------------------------
  // Paths
  // ---------------------------------------------------------------------

  /** `v?.[p0]?.[p1]…`: the value at a path, `undefined` once a step leaves the objects. */
  function Walk(v: Value, path: seq<string>): Value
    decreases |path|
  {
    if path == [] then v else Walk(Get(v, path[0]), path[1..])
  }

  /** One more step at the end of a path. */
  lemma {:induction false} WalkSnoc(v: Value, path: seq<string>, k: string)
    ensures Walk(v, path + [k]) == Get(Walk(v, path), k)
    decreases |path|
  {
    if path != [] {
      assert (path + [k])[1..] == path[1..] + [k];
      WalkSnoc(Get(v, path[0]), path[1..], k);
    }
  }

  /**
   * The plain reads `current = current[keys[i]]` and `current[lastKey]`
   * succeed: no object on the way to the leaf, `prev` included, is
   * `undefined` or `null`.
   */
  predicate Reachable(v: Value, keys: seq<string>) {
    forall d :: 0 <= d < |keys| ==> !Nullish(Walk(v, keys[..d]))
  }

  /** A property of a copy is the property of what was copied. */
  lemma {:induction false} FieldOfSpread(v: Value, k: string)
    ensures Field(Spread(v), k) == Get(v, k)
  {
  }

  /**
   * The config with `value` written at the path `keys`: every object on the
   * path is a copy of the old one (`{...}` of a falsy or non-object old
   * value is `{}`) with the next key replaced, and the leaf is `value`.
   */
  function SetPath(v: Value, keys: seq<string>, value: Value): (r: Value)
    requires |keys| >= 1
    ensures r.Obj? && r.fields.Keys == Spread(v).Keys + {keys[0]}
    decreases |keys|
  {
    var m := Spread(v);
    if |keys| == 1 then Obj(m[keys[0] := value])
    else Obj(m[keys[0] := SetPath(Field(m, keys[0]), keys[1..], value)])
  }

  /** Below depth `d`, the new config is the old sub-object with the rest of the path written. */
  lemma {:induction false} SetPathAt(v: Value, keys: seq<string>, value: Value, d: nat)
    requires d < |keys|
    ensures Walk(SetPath(v, keys, value), keys[..d]) == SetPath(Walk(v, keys[..d]), keys[d..], value)
    decreases d
  {
    if d > 0 {
      var k := keys[0];
      var child := Get(v, k);
      FieldOfSpread(v, k);
      assert Get(SetPath(v, keys, value), k) == SetPath(child, keys[1..], value);
      SetPathAt(child, keys[1..], value, d - 1);
      assert keys[1..][..d - 1] == keys[..d][1..];
      assert keys[1..][d - 1..] == keys[d..];
    }
  }

  /** The leaf at the path is the written value. */
  lemma {:induction false} SetPathLeaf(v: Value, keys: seq<string>, value: Value)
    requires |keys| >= 1
    ensures Walk(SetPath(v, keys, value), keys) == value
  {
    var n := |keys|;
    SetPathAt(v, keys, value, n - 1);
    var above := Walk(SetPath(v, keys, value), keys[..n - 1]);
    assert keys[n - 1..] == [keys[n - 1]];
    assert Get(above, keys[n - 1]) == value;
    WalkSnoc(SetPath(v, keys, value), keys[..n - 1], keys[n - 1]);
    assert keys[..n - 1] + [keys[n - 1]] == keys;
  }

  /**
   * Every object above the leaf exists in the new config, and holds the old
   * object's keys and the next key of the path: a missing or falsy
   * intermediate becomes an object with just that key.
   */
  lemma {:induction false} SetPathCreatesIntermediates(v: Value, keys: seq<string>, value: Value, d: nat)
    requires d < |keys|
    ensures var now := Walk(SetPath(v, keys, value), keys[..d]);
      && now.Obj?
      && now.fields.Keys == Spread(Walk(v, keys[..d])).Keys + {keys[d]}
      && (!Truthy(Walk(v, keys[..d])) ==> now.fields.Keys == {keys[d]})
  {
    SetPathAt(v, keys, value, d);
    assert keys[d..][0] == keys[d];
  }

  /** At every level of the path, every key other than the next one keeps its old value. */
  lemma {:induction false} SetPathKeepsSiblings(v: Value, keys: seq<string>, value: Value, d: nat, k: string)
    requires d < |keys| && k != keys[d]
    ensures Get(Walk(SetPath(v, keys, value), keys[..d]), k) == Get(Walk(v, keys[..d]), k)
  {
    SetPathAt(v, keys, value, d);
    assert keys[d..][0] == keys[d];
    FieldOfSpread(Walk(v, keys[..d]), k);
  }

  /** A one-key path is the top-level `{...prev, [key]: value}`. */
  lemma {:induction false} SetPathTopLevel(v: Value, key: string, value: Value)
    requires '.' !in key
    ensures SetPath(v, Split(key, '.'), value) == Obj(Spread(v)[key := value])
  {
    SplitNoSep(key, '.');
  }

  // ---------------------------------------------------------------------
  // The two loops of updateConfig
  // ---------------------------------------------------------------------

  /**
   * The read loop of a function-valued update: `current = current[keys[i]]`
   * for every key but the last, then `current[lastKey]`; reading through
   * `undefined` or `null` throws.
   */
  method ReadPath(prev: Value, keys: seq<string>) returns (r: Result<Value, JsError>)
    requires |keys| >= 1
    ensures r.Ok? <==> Reachable(prev, keys)
    ensures r.Ok? ==> r.value == Walk(prev, keys)
  {
    var current := prev;
    var i := 0;
    while i < |keys| - 1
      invariant 0 <= i <= |keys| - 1
      invariant current == Walk(prev, keys[..i])
      invariant forall d :: 0 <= d < i ==> !Nullish(Walk(prev, keys[..d]))
    {
      var step := Read(current, keys[i]);
      if step.Err? {
        return Err(step.error);
      }
      WalkSnoc(prev, keys[..i], keys[i]);
      assert keys[..i] + [keys[i]] == keys[..i + 1];
      current := step.value;
      i := i + 1;
    }
    var n := |keys|;
    r := Read(current, keys[n - 1]);
    if r.Ok? {
      WalkSnoc(prev, keys[..n - 1], keys[n - 1]);
      assert keys[..n - 1] + [keys[n - 1]] == keys;
    }
  }

  /** The copy made one level down is the copy of the old object one level down. */
  lemma {:induction false} CopyStep(prev: Value, keys: seq<string>, i: nat)
    requires i < |keys|
    ensures var child := Field(Spread(Walk(prev, keys[..i])), keys[i]);
      Spread(if Truthy(child) then child else Obj(map[])) == Spread(Walk(prev, keys[..i + 1]))
  {
    FieldOfSpread(Walk(prev, keys[..i]), keys[i]);
    WalkSnoc(prev, keys[..i], keys[i]);
    assert keys[..i] + [keys[i]] == keys[..i + 1];
  }

  /** Linking the level-`i` copy to the written level below gives the write from level `i`. */
  lemma {:induction false} LinkStep(prev: Value, keys: seq<string>, value: Value, i: nat, copy: JsValues.Props, inner: Value)
    requires i + 1 < |keys|
    requires copy == Spread(Walk(prev, keys[..i]))
    requires inner == SetPath(Walk(prev, keys[..i + 1]), keys[i + 1..], value)
    ensures Obj(copy[keys[i] := inner]) == SetPath(Walk(prev, keys[..i]), keys[i..], value)
  {
    FieldOfSpread(Walk(prev, keys[..i]), keys[i]);
    WalkSnoc(prev, keys[..i], keys[i]);
    assert keys[..i] + [keys[i]] == keys[..i + 1];
    assert keys[i..][0] == keys[i] && keys[i..][1..] == keys[i + 1..];
  }

  /** Setting the leaf in the deepest copy is the write from the last level. */
  lemma {:induction false} LeafStep(prev: Value, keys: seq<string>, value: Value, copy: JsValues.Props)
    requires |keys| >= 1
    requires copy == Spread(Walk(prev, keys[..|keys| - 1]))
    ensures Obj(copy[keys[|keys| - 1] := value]) == SetPath(Walk(prev, keys[..|keys| - 1]), keys[|keys| - 1..], value)
  {
    assert keys[|keys| - 1..] == [keys[|keys| - 1]];
  }

  /** The copies the write loop holds: level `j` is `{...}` of the old object `j` keys down. */
  predicate CopiesOf(prev: Value, keys: seq<string>, copies: seq<JsValues.Props>) {
    |copies| <= |keys| && forall j :: 0 <= j < |copies| ==> copies[j] == Spread(Walk(prev, keys[..j]))
  }

  /**
   * The descent of the write loop: `newConfig = {...prev}`, then for every
   * key but the last, a falsy `current[k]` is first set to `{}`,
   * `current[k]` is replaced by a copy of itself and the walk goes into the
   * copy.
   */
  method CopyLevels(prev: Value, keys: seq<string>) returns (copies: seq<JsValues.Props>)
    requires |keys| >= 1
    ensures |copies| == |keys| && CopiesOf(prev, keys, copies)
  {
    copies := [Spread(prev)];
    var i := 0;
    while i < |keys| - 1
      invariant 0 <= i <= |keys| - 1 && |copies| == i + 1
      invariant CopiesOf(prev, keys, copies)
    {
      var child := Field(copies[i], keys[i]);
      if !Truthy(child) {
        child := Obj(map[]);
      }
      CopyStep(prev, keys, i);
      copies := copies + [Spread(child)];
      i := i + 1;
    }
  }

  /**
   * The write loop as a whole: after the descent the leaf is set in the
   * deepest copy. Each copy holds the next one, so here they are linked
   * bottom-up.
   */
  method WritePath(prev: Value, keys: seq<string>, value: Value) returns (r: Value)
    requires |keys| >= 1
    ensures r == SetPath(prev, keys, value)
  {
    var copies := CopyLevels(prev, keys);
    var n := |keys|;
    LeafStep(prev, keys, value, copies[n - 1]);
    r := Obj(copies[n - 1][keys[n - 1] := value]);
    var i := n - 1;
    while i > 0
      invariant 0 <= i <= n - 1
      invariant r == SetPath(Walk(prev, keys[..i]), keys[i..], value)
    {
      i := i - 1;
      LinkStep(prev, keys, value, i, copies[i], r);
      r := Obj(copies[i][keys[i] := r]);
    }
    assert keys[..0] == [] && keys[0..] == keys;
  }

  // ---------------------------------------------------------------------
  // updateConfig
  // ---------------------------------------------------------------------

  /** The `value` argument of `updateConfig`: a value, or a function of the old value. */
  datatype Update = Plain(value: Value) | Computed(f: Value -> Value)

  /**
   * The state updater `updateConfig(key, value)` passes to `setConfig`:
   * the next config, or the TypeError a function-valued update throws when
   * the path runs through `undefined` or `null`. A key with a dot is a
   * path; a key without one is a top-level property, which is the same as a
   * one-key path.
   */
  method NextConfig(prev: Value, key: string, update: Update) returns (r: Result<Value, JsError>)
    ensures var keys := Split(key, '.');
      && (update.Plain? ==> r == Ok(SetPath(prev, keys, update.value)))
      && (update.Computed? ==> (r.Ok? <==> Reachable(prev, keys)))
      && (update.Computed? && r.Ok? ==> r.value == SetPath(prev, keys, update.f(Walk(prev, keys))))
  {
    var keys := Split(key, '.');
    var newValue: Value;
    if update.Computed? {
      var oldValue := ReadPath(prev, keys);
      if oldValue.Err? {
        return Err(oldValue.error);
      }
      newValue := update.f(oldValue.value);
    } else {
      newValue := update.value;
    }
    if '.' in key {
      var next := WritePath(prev, keys, newValue);
      r := Ok(next);
    } else {
      SetPathTopLevel(prev, key, newValue);
      r := Ok(Obj(Spread(prev)[key := newValue]));
    }
  }

  // ---------------------------------------------------------------------
  // previewSize
  // ---------------------------------------------------------------------

  datatype Size = Size(width: int, height: int)

  /** The preview when the widget has no layout entry or there is no grid configuration. */
  const DefaultPreview: Size := Size(600, 400)

  /**
   * `previewSize`: the pixel size of the widget's block, or 600 by 400
   * without a layout entry or grid configuration. `None` stands for the NaN
   * a missing or non-numeric `cellSize` or `gap` produces.
   */
  function PreviewSize(layout: Layout, widgetId: Option<string>, gridConfig: Value): (r: Option<Size>)
    ensures var entry := if widgetId.Some? then Find(layout, HasId(widgetId.value)) else None;
      var cellSize, gap := ToNumber(Get(gridConfig, "cellSize")), ToNumber(Get(gridConfig, "gap"));
      && (entry.None? || !Truthy(gridConfig) ==> r == Some(DefaultPreview))
      && (entry.Some? && Truthy(gridConfig) ==>
            (r.Some? <==> cellSize.Some? && gap.Some?)
            && (r.Some? ==> r.value == Size(GridItem.Extent(entry.value.w, cellSize.value, gap.value),
                                           GridItem.Extent(entry.value.h, cellSize.value, gap.value))))
  {
    var entry := if widgetId.Some? then Find(layout, HasId(widgetId.value)) else None;
    if entry.None? || !Truthy(gridConfig) then Some(DefaultPreview)
    else
      var cellSize, gap := ToNumber(Get(gridConfig, "cellSize")), ToNumber(Get(gridConfig, "gap"));
      if cellSize.None? || gap.None? then None
      else
        var w, h := entry.value.w, entry.value.h;
        Some(Size(w * cellSize.value + (w - 1) * gap.value, h * cellSize.value + (h - 1) * gap.value))
  }

  /**
   * The preview is as large as the block the grid draws: from the widget's
   * left (top) edge, its width (height) and one gap reach the start of the
   * column (row) just past it.
   */
  lemma {:induction false} PreviewMatchesGrid(layout: Layout, id: string, cellSize: int, gap: int)
    requires Find(layout, HasId(id)).Some?
    ensures var it := Find(layout, HasId(id)).value;
      var grid := Obj(map["cellSize" := Num(cellSize), "gap" := Num(gap)]);
      var r := PreviewSize(layout, Some(id), grid);
      && r.Some?
      && GridItem.Offset(it.x, cellSize, gap) + r.value.width + gap == GridItem.Offset(it.x + it.w, cellSize, gap)
      && GridItem.Offset(it.y, cellSize, gap) + r.value.height + gap == GridItem.Offset(it.y + it.h, cellSize, gap)
  {
    var it := Find(layout, HasId(id)).value;
    var grid := Obj(map["cellSize" := Num(cellSize), "gap" := Num(gap)]);
    assert Get(grid, "cellSize") == Num(cellSize) && Get(grid, "gap") == Num(gap);
    GridItem.AdjacentItemsOneGapApart(it.x, it.w, cellSize, gap);
    GridItem.AdjacentItemsOneGapApart(it.y, it.h, cellSize, gap);
  }

  // ---------------------------------------------------------------------
  // The dialog's state
  // ---------------------------------------------------------------------

  /**
   * `widgetInstances.find(inst => inst.id === widgetId)`: the first instance
   * with the id, or nothing exactly when no instance has it.
   */
  function InstanceOf(s: Store.State, widgetId: Option<string>): (r: Option<Store.Instance>)
    ensures r.Some? ==> widgetId.Some? && r.value in s.widgetInstances && r.value.id == widgetId.value
    ensures r.Some? ==> exists i :: (0 <= i < |s.widgetInstances| && s.widgetInstances[i] == r.value
      && forall j :: 0 <= j < i ==> s.widgetInstances[j].id != widgetId.value)
    ensures r.None? ==> widgetId.None? || forall i :: 0 <= i < |s.widgetInstances| ==> s.widgetInstances[i].id != widgetId.value
  {
    if widgetId.Some? then
      FindFacts(s.widgetInstances, Store.IsInstance(widgetId.value));
      FindIndexFacts(s.widgetInstances, Store.IsInstance(widgetId.value));
      Find(s.widgetInstances, Store.IsInstance(widgetId.value))
    else None
  }

  /** A `widgetId` prop that passes `if (widgetId)`: present and not the empty string. */
  predicate IsGiven(widgetId: Option<string>) {
    widgetId.Some? && widgetId.value != ""
  }

  class WidgetConfigDialog {
    /** The draft the forms edit, `useState({})`. */
    var config: Value

    constructor()
      ensures config == Obj(map[])
    {
      config := Obj(map[]);
    }

    /** The loading effect: a found instance's config (`|| {}`) becomes the draft. */
    method LoadInstance(instance: Option<Store.Instance>)
      modifies this
      ensures instance.Some? ==> config == JsOr(Obj(instance.value.config), Obj(map[]))
      ensures instance.None? ==> config == old(config)
    {
      if instance.Some? {
        config := JsOr(Obj(instance.value.config), Obj(map[]));
      }
    }

    /** `updateConfig(key, value)`: the draft takes the updater's result; a throwing updater leaves it. */
    method UpdateConfig(key: string, update: Update) returns (err: Option<JsError>)
      modifies this
      ensures update.Plain? ==> err == None && config == SetPath(old(config), Split(key, '.'), update.value)
      ensures update.Computed? ==> (err == None <==> Reachable(old(config), Split(key, '.')))
      ensures err.Some? ==> config == old(config)
      ensures update.Computed? && err == None ==>
        var keys := Split(key, '.');
        config == SetPath(old(config), keys, update.f(Walk(old(config), keys)))
    {
      var next := NextConfig(config, key, update);
      if next.Err? {
        return Some(next.error);
      }
      config := next.value;
      err := None;
    }

    /**
     * `handleSave()`: with a `widgetId`, the draft's properties are merged
     * into the instance's config and the dialog closes; without one nothing
     * happens.
     */
    method HandleSave(s: Store.State, widgetId: Option<string>, stamp: string) returns (r: Store.State, closed: bool)
      ensures !IsGiven(widgetId) ==> r == s && !closed
      ensures IsGiven(widgetId) ==> closed && r == Store.UpdateWidgetInstance(s, widgetId.value, Spread(config), stamp)
      ensures IsGiven(widgetId) ==>
        var k := FindIndex(s.widgetInstances, Store.IsInstance(widgetId.value));
        0 <= k ==> forall key :: key in Spread(config) ==> r.widgetInstances[k].config[key] == Spread(config)[key]
    {
      if IsGiven(widgetId) {
        r := Store.UpdateWidgetInstance(s, widgetId.value, Spread(config), stamp);
        closed := true;
      } else {
        r := s;
        closed := false;
      }
    }
  }
}
