/**
 * The `migrate` hook of the persisted store (src/store/useStore.js:376-481):
 * it rewrites an old saved state, step by step, into the current format.
 * The source edits the saved object in place; here each step takes the
 * state's top-level properties and returns the edited ones, or the
 * TypeError a strict-mode property write on a non-object raises.
 */
module Migration {
  import opened Wrappers
  import opened JsValues
  import Store

  /** The weather location written when none is saved. */
  function DefaultLocation(): Props {
    map["latitude" := Null, "longitude" := Null, "name" := Str(""), "timezone" := Str("auto")]
  }

  /** The speed-dial configuration written when none is saved. */
  function SpeedDialDefault(): Props {
    map["enabled" := Bool(false), "bindings" := Obj(map[])]
  }

  /** The cell size written when the saved one is missing or 0. */
  const DefaultCellSize: int := 96

  /** The old one-letter temperature units become the long names; any other value stays. */
  function MigratedUnit(u: Value): (r: Value)
    ensures u == Str("c") ==> r == Str("celsius")
    ensures u == Str("f") ==> r == Str("fahrenheit")
    ensures u != Str("c") && u != Str("f") ==> r == u
  {
    if u == Str("c") then Str("celsius") else if u == Str("f") then Str("fahrenheit") else u
  }

  /** `colorMap[name]` of the background step: the three known class names. */
  function ColorMap(name: Value): (r: Value)
    ensures r.Undefined? || r.Str?
  {
    if name == Str("white") then Str("#ffffff")
    else if name == Str("gray-800") then Str("#1f2937")
    else if name == Str("gray-900") then Str("#111827")
    else Undefined
  }

  /** `persistedState.widgets`. */
  function Widgets(state: Props): Value {
    Field(state, "widgets")
  }

  /** A saved `widgets` is an object, or absent (falsy). */
  predicate WidgetsShaped(state: Props) {
    Truthy(Widgets(state)) ==> Widgets(state).Obj?
  }

  /** The saved parts the steps write into are objects wherever they are present at all. */
  predicate Shaped(state: Props) {
    && WidgetsShaped(state)
    && (Truthy(Get(Widgets(state), "weather")) ==> Get(Widgets(state), "weather").Obj?)
    && (Truthy(Field(state, "gridConfig")) ==> Field(state, "gridConfig").Obj?)
  }

  /** `if (!v[k]) v[k] = d;`: a falsy property gets the default; writing into a non-object throws. */
  function DefaultField(v: Value, k: string, d: Value): (r: Result<Value, JsError>)
    ensures r.Ok? <==> v.Obj?
    ensures r.Ok? ==> r.value.Obj? && Get(r.value, k) == JsOr(Get(v, k), d)
    ensures r.Ok? ==> forall j :: j != k ==> Get(r.value, j) == Get(v, j)
  {
    if !Truthy(Get(v, k)) then Assign(v, k, d) else Ok(v)
  }

  /** The unit rename on a weather object: `'c'` to `'celsius'`, `'f'` to `'fahrenheit'`. */
  function RenameUnit(weather: Value): (r: Value)
    requires weather.Obj?
    ensures r.Obj? && Get(r, "unit") == MigratedUnit(Get(weather, "unit"))
    ensures forall j :: j != "unit" ==> Get(r, j) == Get(weather, j)
  {
    if Get(weather, "unit") == Str("c") then Obj(weather.fields["unit" := Str("celsius")])
    else if Get(weather, "unit") == Str("f") then Obj(weather.fields["unit" := Str("fahrenheit")])
    else weather
  }

  /**
   * The saved weather object `weather` migrated to `w`: a location and a city
   * list where they were missing, long unit names, `apiKey` and `city`
   * gone, and every other property as it was.
   */
  ghost predicate WeatherMigrated(weather: Value, w: Value) {
    && w.Obj?
    && Get(w, "unit") == MigratedUnit(Get(weather, "unit"))
    && Get(w, "location") == JsOr(Get(weather, "location"), Obj(DefaultLocation()))
    && Get(w, "savedCities") == JsOr(Get(weather, "savedCities"), Arr([]))
    && Get(w, "apiKey") == Undefined && Get(w, "city") == Undefined
    && forall k :: k != "location" && k != "savedCities" && k != "unit" && k != "apiKey" && k != "city" ==>
         Get(w, k) == Get(weather, k)
  }

  /** The edits of the weather step on the saved weather object itself. */
  method MigrateWeatherObject(weather: Value) returns (r: Result<Value, JsError>)
    ensures r.Ok? <==> weather.Obj?
    ensures r.Ok? ==> WeatherMigrated(weather, r.value)
  {
    var w :- DefaultField(weather, "location", Obj(DefaultLocation()));
    w := DefaultField(w, "savedCities", Arr([])).value;
    w := RenameUnit(w);
    w := Delete(w, "apiKey");
    w := Delete(w, "city");
    return Ok(w);
  }

  /** The weather step: default location and city list, long unit names, old fields deleted. */
  method MigrateWeather(state: Props) returns (r: Result<Props, JsError>)
    ensures var weather := Get(Widgets(state), "weather");
      && (!Truthy(weather) ==> r == Ok(state))
      && (Truthy(weather) ==> (r.Ok? <==> weather.Obj?))
    ensures r.Ok? ==> forall k :: k != "widgets" ==> Field(r.value, k) == Field(state, k)
    ensures r.Ok? ==> (WidgetsShaped(r.value) <==> WidgetsShaped(state))
    ensures r.Ok? ==> forall k :: k != "weather" ==> Get(Widgets(r.value), k) == Get(Widgets(state), k)
    ensures r.Ok? && Truthy(Get(Widgets(state), "weather")) ==>
      WeatherMigrated(Get(Widgets(state), "weather"), Get(Widgets(r.value), "weather"))
  {
    var widgets := Widgets(state);
    var weather := Get(widgets, "weather");
    if !Truthy(weather) {
      return Ok(state);
    }
    var migrated :- MigrateWeatherObject(weather);
    return Ok(state["widgets" := Obj(widgets.fields["weather" := migrated])]);
  }

  /**
   * The saved grid configuration `grid` migrated to `g`: no `width` or
   * `height`, a cell size of 96 where it was missing or 0, and every other
   * property as it was.
   */
  ghost predicate GridMigrated(grid: Value, g: Value) {
    && g.Obj?
    && Get(g, "cellSize") == JsOr(Get(grid, "cellSize"), Num(DefaultCellSize))
    && Get(g, "width") == Undefined && Get(g, "height") == Undefined
    && forall k :: k != "cellSize" && k != "width" && k != "height" ==> Get(g, k) == Get(grid, k)
  }

  /** The grid step: `width`/`height` deleted, a missing or zero `cellSize` set to 96. */
  method MigrateGrid(state: Props) returns (r: Result<Props, JsError>)
    ensures var grid := Field(state, "gridConfig");
      && (!Truthy(grid) ==> r == Ok(state))
      && (Truthy(grid) ==> (r.Ok? <==> grid.Obj?))
    ensures r.Ok? ==> forall k :: k != "gridConfig" ==> Field(r.value, k) == Field(state, k)
    ensures r.Ok? && Truthy(Field(state, "gridConfig")) ==>
      GridMigrated(Field(state, "gridConfig"), Field(r.value, "gridConfig"))
  {
    var grid := Field(state, "gridConfig");
    if !Truthy(grid) {
      return Ok(state);
    }
    grid := Delete(grid, "width");
    grid := Delete(grid, "height");
    if !Truthy(Get(grid, "cellSize")) {
      grid :- Assign(grid, "cellSize", Num(DefaultCellSize));
    }
    return Ok(state["gridConfig" := grid]);
  }

  /** The notes step: a missing `widgets` becomes `{}`, a missing `notes` the default notes. */
  method MigrateNotes(state: Props) returns (r: Result<Props, JsError>)
    ensures Truthy(Get(Widgets(state), "notes")) ==> r == Ok(state)
    ensures r.Ok? <==> WidgetsShaped(state)
    ensures r.Ok? ==> forall k :: k != "widgets" ==> Field(r.value, k) == Field(state, k)
    ensures r.Ok? ==> Widgets(r.value).Obj? && Truthy(Get(Widgets(r.value), "notes"))
    ensures r.Ok? && !Truthy(Get(Widgets(state), "notes")) ==>
      Get(Widgets(r.value), "notes") == Obj(Store.NotesDefault())
    ensures r.Ok? ==> forall k :: k != "notes" ==> Get(Widgets(r.value), k) == Get(Widgets(state), k)
  {
    if Truthy(Get(Widgets(state), "notes")) {
      return Ok(state);
    }
    var st := state;
    if !Truthy(Widgets(st)) {
      st := st["widgets" := Obj(map[])];
    }
    var widgets :- Assign(Widgets(st), "notes", Obj(Store.NotesDefault()));
    return Ok(st["widgets" := widgets]);
  }

  /** The speed-dial step: `speedDial` renamed to `speeddial`, then a missing one defaulted. */
  method MigrateSpeedDial(state: Props) returns (r: Result<Props, JsError>)
    ensures r.Ok? <==> WidgetsShaped(state)
    ensures r.Ok? ==> forall k :: k != "widgets" ==> Field(r.value, k) == Field(state, k)
    ensures r.Ok? ==> Widgets(r.value).Obj? && Truthy(Get(Widgets(r.value), "speeddial"))
    ensures r.Ok? ==> forall k :: k != "speeddial" && k != "speedDial" ==>
      Get(Widgets(r.value), k) == Get(Widgets(state), k)
    ensures var legacy := Get(Widgets(state), "speedDial");
      r.Ok? && Truthy(legacy) ==>
        Get(Widgets(r.value), "speeddial") == legacy && Get(Widgets(r.value), "speedDial") == Undefined
    ensures var legacy := Get(Widgets(state), "speedDial");
      var current := Get(Widgets(state), "speeddial");
      && (!Truthy(legacy) && Truthy(current) ==> r == Ok(state))
      && (r.Ok? && !Truthy(legacy) && !Truthy(current) ==>
            Get(Widgets(r.value), "speeddial") == Obj(SpeedDialDefault())
            && Get(Widgets(r.value), "speedDial") == legacy)
  {
    var st := state;
    var widgets := Widgets(st);
    if Truthy(Get(widgets, "speedDial")) {
      st := st["widgets" := Delete(Obj(widgets.fields["speeddial" := Get(widgets, "speedDial")]), "speedDial")];
    }
    if !Truthy(Get(Widgets(st), "speeddial")) {
      if !Truthy(Widgets(st)) {
        st := st["widgets" := Obj(map[])];
      }
      var defaulted :- Assign(Widgets(st), "speeddial", Obj(SpeedDialDefault()));
      st := st["widgets" := defaulted];
    }
    return Ok(st);
  }

  /**
   * The notes and speed-dial configurations of the saved widgets `widgets`
   * in `w`: the notes configuration kept or defaulted, a legacy `speedDial`
   * moved to `speeddial`, and otherwise the speed-dial configuration kept or
   * defaulted.
   */
  predicate DefaultsAdded(widgets: Value, w: Value) {
    var legacy := Get(widgets, "speedDial");
    && Get(w, "notes") == JsOr(Get(widgets, "notes"), Obj(Store.NotesDefault()))
    && (Truthy(legacy) ==> Get(w, "speeddial") == legacy && Get(w, "speedDial") == Undefined)
    && (!Truthy(legacy) ==>
          Get(w, "speeddial") == JsOr(Get(widgets, "speeddial"), Obj(SpeedDialDefault()))
          && Get(w, "speedDial") == legacy)
  }

  /** The saved widgets after the notes and speed-dial steps: the defaults added and every other widget as it was. */
  ghost predicate WidgetDefaultsMigrated(widgets: Value, w: Value) {
    && w.Obj?
    && DefaultsAdded(widgets, w)
    && forall k :: k != "notes" && k != "speeddial" && k != "speedDial" ==> Get(w, k) == Get(widgets, k)
  }

  /** The notes step, then the speed-dial step: both only add to or rename inside `widgets`. */
  method MigrateWidgetDefaults(state: Props) returns (r: Result<Props, JsError>)
    ensures r.Ok? <==> WidgetsShaped(state)
    ensures r.Ok? ==> forall k :: k != "widgets" ==> Field(r.value, k) == Field(state, k)
    ensures r.Ok? ==> Truthy(Get(Widgets(r.value), "notes")) && Truthy(Get(Widgets(r.value), "speeddial"))
    ensures r.Ok? ==> WidgetDefaultsMigrated(Widgets(state), Widgets(r.value))
  {
    var s1 :- MigrateNotes(state);
    var s2 := MigrateSpeedDial(s1);
    return s2;
  }

  /** The colour a legacy class name stands for, `colorMap[name] || fallback`. */
  function LegacyColor(name: Value, fallback: string): Value {
    JsOr(ColorMap(name), Str(fallback))
  }

  /**
   * `if (bg[base] && !bg[color]) { bg[color] = colorMap[bg[base]] || fallback; delete bg[base]; }`
   */
  function ConvertLegacy(bg: Value, base: string, color: string, fallback: string): (r: Value)
    requires base != color
    ensures Truthy(Get(bg, base)) && !Truthy(Get(bg, color)) ==>
      Get(r, color) == LegacyColor(Get(bg, base), fallback) && Get(r, base) == Undefined
    ensures !(Truthy(Get(bg, base)) && !Truthy(Get(bg, color))) ==> r == bg
    ensures forall j :: j != base && j != color ==> Get(r, j) == Get(bg, j)
  {
    if Truthy(Get(bg, base)) && !Truthy(Get(bg, color)) then
      Delete(Obj(bg.fields[color := LegacyColor(Get(bg, base), fallback)]), base)
    else bg
  }

  /**
   * The saved background `bg` migrated to `b`: a legacy `base` (`baseDark`)
   * without a `color` (`colorDark`) is replaced by the colour it names, with
   * `#ffffff` (`#1f2937`) for an unknown name; everything else is as it was.
   */
  ghost predicate BackgroundMigrated(bg: Value, b: Value) {
    && (Truthy(Get(bg, "base")) && !Truthy(Get(bg, "color")) ==>
          Get(b, "color") == LegacyColor(Get(bg, "base"), "#ffffff") && Get(b, "base") == Undefined)
    && (!(Truthy(Get(bg, "base")) && !Truthy(Get(bg, "color"))) ==>
          Get(b, "color") == Get(bg, "color") && Get(b, "base") == Get(bg, "base"))
    && (Truthy(Get(bg, "baseDark")) && !Truthy(Get(bg, "colorDark")) ==>
          Get(b, "colorDark") == LegacyColor(Get(bg, "baseDark"), "#1f2937") && Get(b, "baseDark") == Undefined)
    && (!(Truthy(Get(bg, "baseDark")) && !Truthy(Get(bg, "colorDark"))) ==>
          Get(b, "colorDark") == Get(bg, "colorDark") && Get(b, "baseDark") == Get(bg, "baseDark"))
    && forall k :: k != "color" && k != "base" && k != "colorDark" && k != "baseDark" ==> Get(b, k) == Get(bg, k)
  }

  /**
   * The background step: a legacy `base` (`baseDark`) without a `color`
   * (`colorDark`) becomes that colour and is deleted.
   */
  method MigrateBackground(state: Props) returns (r: Props)
    ensures !Truthy(Get(Field(state, "widgetStyles"), "background")) ==> r == state
    ensures forall k :: k != "widgetStyles" ==> Field(r, k) == Field(state, k)
    ensures forall k :: k != "background" ==>
      Get(Field(r, "widgetStyles"), k) == Get(Field(state, "widgetStyles"), k)
    ensures BackgroundMigrated(Get(Field(state, "widgetStyles"), "background"), Get(Field(r, "widgetStyles"), "background"))
  {
    var styles := Field(state, "widgetStyles");
    var bg := Get(styles, "background");
    if !Truthy(bg) {
      return state;
    }
    bg := ConvertLegacy(bg, "base", "color", "#ffffff");
    bg := ConvertLegacy(bg, "baseDark", "colorDark", "#1f2937");
    return state["widgetStyles" := Obj(styles.fields["background" := bg])];
  }

  /** The weather and grid steps: each migrates a saved object where there is one. */
  method MigrateWeatherAndGrid(persisted: Props) returns (r: Result<Props, JsError>)
    ensures r.Ok? <==>
      && (Truthy(Get(Widgets(persisted), "weather")) ==> Get(Widgets(persisted), "weather").Obj?)
      && (Truthy(Field(persisted, "gridConfig")) ==> Field(persisted, "gridConfig").Obj?)
    ensures r.Ok? ==> forall k :: k != "widgets" && k != "gridConfig" ==> Field(r.value, k) == Field(persisted, k)
    ensures r.Ok? ==> (WidgetsShaped(r.value) <==> WidgetsShaped(persisted))
    ensures r.Ok? ==> forall k :: k != "weather" ==> Get(Widgets(r.value), k) == Get(Widgets(persisted), k)
    ensures var weather := Get(Widgets(persisted), "weather");
      && (r.Ok? && Truthy(weather) ==> WeatherMigrated(weather, Get(Widgets(r.value), "weather")))
      && (r.Ok? && !Truthy(weather) ==> Get(Widgets(r.value), "weather") == weather)
    ensures var grid := Field(persisted, "gridConfig");
      && (r.Ok? && Truthy(grid) ==> GridMigrated(grid, Field(r.value, "gridConfig")))
      && (r.Ok? && !Truthy(grid) ==> Field(r.value, "gridConfig") == grid)
  {
    var s1 :- MigrateWeather(persisted);
    assert Field(s1, "gridConfig") == Field(persisted, "gridConfig");
    var s2 :- MigrateGrid(s1);
    assert Widgets(s2) == Widgets(s1);
    return Ok(s2);
  }

  /** The notes, speed-dial and background steps. */
  method MigrateWidgetsAndStyles(state: Props) returns (r: Result<Props, JsError>)
    ensures r.Ok? <==> WidgetsShaped(state)
    ensures r.Ok? ==> forall k :: k != "widgets" && k != "widgetStyles" ==> Field(r.value, k) == Field(state, k)
    ensures r.Ok? ==> Truthy(Get(Widgets(r.value), "notes")) && Truthy(Get(Widgets(r.value), "speeddial"))
    ensures r.Ok? ==> WidgetDefaultsMigrated(Widgets(state), Widgets(r.value))
    ensures var styles := Field(state, "widgetStyles");
      && (r.Ok? ==> BackgroundMigrated(Get(styles, "background"), Get(Field(r.value, "widgetStyles"), "background")))
      && (r.Ok? ==> forall k :: k != "background" ==> Get(Field(r.value, "widgetStyles"), k) == Get(styles, k))
  {
    var s3 :- MigrateWidgetDefaults(state);
    var s4 := MigrateBackground(s3);
    return Ok(s4);
  }

  /**
   * `migrate(persistedState)`: the five steps in order. It fails exactly when
   * one of the saved parts it writes into is a non-object. Otherwise a saved
   * weather object and grid configuration are migrated, the notes and
   * speed-dial configurations exist, the background is converted, and every
   * other saved property, widget and widget style is as it was.
   */
  method Migrate(persisted: Props) returns (r: Result<Props, JsError>)
    ensures r.Ok? <==> Shaped(persisted)
    ensures r.Ok? ==> forall k :: k != "widgets" && k != "gridConfig" && k != "widgetStyles" ==>
      Field(r.value, k) == Field(persisted, k)
    ensures r.Ok? ==> Truthy(Get(Widgets(r.value), "notes")) && Truthy(Get(Widgets(r.value), "speeddial"))
    ensures var weather := Get(Widgets(persisted), "weather");
      && (r.Ok? && Truthy(weather) ==> WeatherMigrated(weather, Get(Widgets(r.value), "weather")))
      && (r.Ok? && !Truthy(weather) ==> Get(Widgets(r.value), "weather") == weather)
    ensures var grid := Field(persisted, "gridConfig");
      && (r.Ok? && Truthy(grid) ==> GridMigrated(grid, Field(r.value, "gridConfig")))
      && (r.Ok? && !Truthy(grid) ==> Field(r.value, "gridConfig") == grid)
    ensures r.Ok? ==> Widgets(r.value).Obj? && DefaultsAdded(Widgets(persisted), Widgets(r.value))
    ensures r.Ok? ==> forall k :: k != "weather" && k != "notes" && k != "speeddial" && k != "speedDial" ==>
      Get(Widgets(r.value), k) == Get(Widgets(persisted), k)
    ensures var styles := Field(persisted, "widgetStyles");
      && (r.Ok? ==> BackgroundMigrated(Get(styles, "background"), Get(Field(r.value, "widgetStyles"), "background")))
      && (r.Ok? ==> forall k :: k != "background" ==> Get(Field(r.value, "widgetStyles"), k) == Get(styles, k))
  {
    var s2 :- MigrateWeatherAndGrid(persisted);
    var s4 :- MigrateWidgetsAndStyles(s2);
    assert Get(Widgets(s4), "weather") == Get(Widgets(s2), "weather");
    assert DefaultsAdded(Widgets(persisted), Widgets(s4)) by {
      assert Get(Widgets(s2), "notes") == Get(Widgets(persisted), "notes");
      assert Get(Widgets(s2), "speeddial") == Get(Widgets(persisted), "speeddial");
      assert Get(Widgets(s2), "speedDial") == Get(Widgets(persisted), "speedDial");
    }
    return Ok(s4);
  }
}
