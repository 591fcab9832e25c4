/**
 * The widget registry (src/widgets/core/WidgetRegistry.js): a JavaScript
 * `Map` from widget id to its registration record. A `Map` keeps its keys
 * in insertion order; setting an existing key replaces the value in place,
 * deleting a key drops it from the order. The getters list the records in
 * that order and filter them by manifest type or tag.
 */
module WidgetRegistry {
  import opened Wrappers
  import opened Seqs
  import opened Strings
  import opened JsValues

  /** The dynamic-import function of a widget, `() => import('./Widget')`, by what it imports. */
  datatype Loader = Loader(source: string)

  /** The record `register` stores: `{id, manifest, loader, loaded: false, component: null}`. */
  datatype Entry = Entry(id: string, manifest: Value, loader: Loader, loaded: bool, component: Value)

  /** The record a fresh registration creates. */
  function NewEntry(id: string, manifest: Value, loader: Loader): (e: Entry)
    ensures e.id == id && e.manifest == manifest && e.loader == loader
    ensures !e.loaded && e.component == Null
  {
    Entry(id, manifest, loader, false, Null)
  }

  /** The values of `m` under `keys`, in that order. */
  function Values(keys: seq<string>, m: map<string, Entry>): (r: seq<Entry>)
    requires forall i :: 0 <= i < |keys| ==> keys[i] in m
    ensures |r| == |keys|
    ensures forall i :: 0 <= i < |r| ==> r[i] == m[keys[i]]
  {
    if keys == [] then [] else [m[keys[0]]] + Values(keys[1..], m)
  }

  predicate NoDuplicates(s: seq<string>) {
    forall i, j :: 0 <= i < j < |s| ==> s[i] != s[j]
  }

  class Registry {
    /** The keys of the `Map`, in insertion order. */
    var order: seq<string>
    /** The values of the `Map`, by key. */
    var entries: map<string, Entry>

    /** The keys listed once each, exactly the keys of the map, each record under its own id. */
    ghost predicate Valid()
      reads this
    {
      && NoDuplicates(order)
      && (forall id :: id in entries <==> id in order)
      && (forall id :: id in entries ==> entries[id].id == id)
    }

    /** `new WidgetRegistry()`: an empty map. */
    constructor()
      ensures Valid()
      ensures order == [] && entries == map[]
    {
      order := [];
      entries := map[];
    }

    /** `has(id)`. */
    function Has(id: string): (r: bool)
      reads this
      requires Valid()
      ensures r <==> id in order
    {
      id in entries
    }

    /** `getLoader(id)`: the loader, or an error thrown for an unregistered id. */
    function GetLoader(id: string): (r: Result<Loader, string>)
      reads this
      requires Valid()
      ensures r.Err? <==> !Has(id)
      ensures r.Ok? ==> r.value == entries[id].loader
    {
      if id in entries then Ok(entries[id].loader) else Err("Widget \"" + id + "\" 未注册")
    }

    /** `getManifest(id)`: the manifest, or an error thrown for an unregistered id. */
    function GetManifest(id: string): (r: Result<Value, string>)
      reads this
      requires Valid()
      ensures r.Err? <==> !Has(id)
      ensures r.Ok? ==> r.value == entries[id].manifest
    {
      if id in entries then Ok(entries[id].manifest) else Err("Widget \"" + id + "\" 未注册")
    }

    /** `getAll()`: `Array.from(this.widgets.values())`, in insertion order. */
    function GetAll(): (r: seq<Entry>)
      reads this
      requires Valid()
      ensures |r| == |order|
      ensures forall i :: 0 <= i < |r| ==> r[i] == entries[order[i]] && r[i].id == order[i]
    {
      Values(order, entries)
    }

    /**
     * `register(id, manifest, loader)`: the record is set (replacing an old
     * one in place, with only a warning); the log line then reads
     * `manifest.name`, which throws when the manifest is `undefined` or
     * `null` — after the record has been stored.
     */
    method Register(id: string, manifest: Value, loader: Loader) returns (thrown: Option<JsError>)
      requires Valid()
      modifies this
      ensures Valid()
      ensures entries == old(entries)[id := NewEntry(id, manifest, loader)]
      ensures order == if id in old(order) then old(order) else old(order) + [id]
      ensures thrown.Some? <==> Nullish(manifest)
      ensures Has(id) && GetManifest(id) == Ok(manifest) && GetLoader(id) == Ok(loader)
      ensures forall k :: k != id ==>
        Has(k) == old(Has(k)) && GetManifest(k) == old(GetManifest(k)) && GetLoader(k) == old(GetLoader(k))
    {
      if id !in entries {
        order := order + [id];
      }
      entries := entries[id := NewEntry(id, manifest, loader)];
      var name := Read(manifest, "name");
      thrown := if name.Err? then Some(name.error) else None;
    }

    /** `unregister(id)`: drops the key when present; a no-op otherwise. */
    method Unregister(id: string)
      requires Valid()
      modifies this
      ensures Valid()
      ensures entries == old(entries) - {id}
      ensures order == Filter(old(order), (k: string) => k != id)
      ensures !Has(id)
      ensures forall k :: k != id ==>
        Has(k) == old(Has(k)) && GetManifest(k) == old(GetManifest(k)) && GetLoader(k) == old(GetLoader(k))
      ensures !old(Has(id)) ==> order == old(order) && entries == old(entries)
    {
      var keep := (k: string) => k != id;
      if id in entries {
        entries := entries - {id};
        FilterNoDuplicates(order, keep);
        order := Filter(order, keep);
      } else {
        FilterAll(order, keep);
      }
    }

    /** `clear()`: the map is emptied. */
    method Clear()
      requires Valid()
      modifies this
      ensures Valid()
      ensures GetAll() == []
      ensures forall id :: !Has(id)
    {
      order := [];
      entries := map[];
    }

    /** `getBuiltin()`: the records whose `manifest.type` is `'builtin'`. */
    function GetBuiltin(): Result<seq<Entry>, JsError>
      reads this
      requires Valid()
    {
      FilterChecked(GetAll(), TypeTest("builtin"))
    }

    /** `getExternal()`: the records whose `manifest.type` is `'external'`. */
    function GetExternal(): Result<seq<Entry>, JsError>
      reads this
      requires Valid()
    {
      FilterChecked(GetAll(), TypeTest("external"))
    }

    /** `searchByTag(tag)`: the records whose `manifest.tags?.includes(tag)` is truthy. */
    function SearchByTag(tag: string): Result<seq<Entry>, JsError>
      reads this
      requires Valid()
    {
      FilterChecked(GetAll(), TagTest(tag))
    }
  }

  /** Filtering keeps the elements listed once each. */
  lemma {:induction false} FilterNoDuplicates(s: seq<string>, p: string -> bool)
    requires NoDuplicates(s)
    ensures NoDuplicates(Filter(s, p))
    ensures forall x :: x in Filter(s, p) <==> x in s && p(x)
  {
    if s != [] {
      FilterNoDuplicates(s[1..], p);
      assert forall x :: x in s[1..] ==> x != s[0] by {
        forall x | x in s[1..] ensures x != s[0] {
          var j :| 0 <= j < |s[1..]| && s[1..][j] == x;
          assert s[j + 1] == x;
        }
      }
    }
  }

  /**
   * `s.filter(test)` for a test that may throw: the first throwing element
   * ends the filter with its error.
   */
  function FilterChecked(s: seq<Entry>, test: Entry -> Result<bool, JsError>): Result<seq<Entry>, JsError> {
    if s == [] then Ok([])
    else
      var keep :- test(s[0]);
      var rest :- FilterChecked(s[1..], test);
      Ok(if keep then [s[0]] + rest else rest)
  }

  /** The elements a test accepts without throwing. */
  function Accepts(test: Entry -> Result<bool, JsError>): Entry -> bool {
    (e: Entry) => test(e) == Ok(true)
  }

  /**
   * The checked filter throws exactly when the test throws on some element;
   * otherwise it is the plain filter of the accepted elements, in order.
   */
  lemma {:induction false} FilterCheckedMeans(s: seq<Entry>, test: Entry -> Result<bool, JsError>)
    ensures FilterChecked(s, test).Ok? <==> forall i :: 0 <= i < |s| ==> test(s[i]).Ok?
    ensures FilterChecked(s, test).Ok? ==> FilterChecked(s, test).value == Filter(s, Accepts(test))
  {
    if s != [] {
      FilterCheckedMeans(s[1..], test);
      assert forall i :: 1 <= i < |s| ==> s[1..][i - 1] == s[i];
    }
  }

  /** `w.manifest.type === t`; reading `type` of an `undefined`/`null` manifest throws. */
  function TypeTest(t: string): Entry -> Result<bool, JsError> {
    (e: Entry) => if Nullish(e.manifest) then Err(TypeError) else Ok(Get(e.manifest, "type") == Str(t))
  }

  /**
   * `w.manifest.tags?.includes(tag)`: `undefined` (no match) for missing
   * tags; array membership; substring search on a string; a value without
   * an `includes` method throws, as does a missing manifest.
   */
  function TagTest(tag: string): Entry -> Result<bool, JsError> {
    (e: Entry) =>
      if Nullish(e.manifest) then Err(TypeError)
      else
        match Get(e.manifest, "tags")
        case Undefined => Ok(false)
        case Null => Ok(false)
        case Arr(elems) => Ok(Str(tag) in elems)
        case Str(s) => Ok(Contains(s, tag))
        case _ => Err(TypeError)
  }

  /** `s.includes(t)` on strings: `t` occurs in `s` at some offset. */
  predicate Contains(s: string, t: string)
    decreases |s|
  {
    StartsWith(s, t) || (s != [] && Contains(s[1..], t))
  }

  /** The listed records carry distinct ids: re-registering never duplicates. */
  lemma {:induction false} GetAllDistinctIds(r: Registry)
    requires r.Valid()
    ensures forall i, j :: 0 <= i < j < |r.GetAll()| ==> r.GetAll()[i].id != r.GetAll()[j].id
  {
    var all := r.GetAll();
    forall i, j | 0 <= i < j < |all| ensures all[i].id != all[j].id {
      assert all[i].id == r.order[i] && all[j].id == r.order[j];
    }
  }

  /**
   * The type filters list, in order, exactly the records of that type, and
   * they throw exactly when some record has no manifest.
   */
  lemma {:induction false} TypeFilterMeans(r: Registry, t: string)
    requires r.Valid()
    ensures var res := FilterChecked(r.GetAll(), TypeTest(t));
      && (res.Err? <==> exists id :: id in r.entries && Nullish(r.entries[id].manifest))
      && (res.Ok? ==> res.value == Filter(r.GetAll(), Accepts(TypeTest(t))))
      && (res.Ok? ==> forall e :: e in res.value <==> e in r.GetAll() && Get(e.manifest, "type") == Str(t))
  {
    var all := r.GetAll();
    FilterCheckedMeans(all, TypeTest(t));
    if exists id :: id in r.entries && Nullish(r.entries[id].manifest) {
      var id :| id in r.entries && Nullish(r.entries[id].manifest);
      var i :| 0 <= i < |r.order| && r.order[i] == id;
      assert TypeTest(t)(all[i]).Err?;
    } else {
      forall i | 0 <= i < |all| ensures TypeTest(t)(all[i]).Ok? {
        assert all[i] == r.entries[r.order[i]];
      }
      var res := FilterChecked(all, TypeTest(t)).value;
      forall e ensures e in res <==> e in all && Get(e.manifest, "type") == Str(t) {
        if e in all {
          var i :| 0 <= i < |all| && all[i] == e;
          assert !Nullish(all[i].manifest);
        }
      }
    }
  }

  /** No record is both built-in and external. */
  lemma {:induction false} BuiltinExternalDisjoint(r: Registry)
    requires r.Valid()
    requires r.GetBuiltin().Ok? && r.GetExternal().Ok?
    ensures forall e :: e in r.GetBuiltin().value ==> e !in r.GetExternal().value
  {
    TypeFilterMeans(r, "builtin");
    TypeFilterMeans(r, "external");
  }

  /** The tag search lists, in order, exactly the records the tag test accepts. */
  lemma {:induction false} SearchByTagMeans(r: Registry, tag: string)
    requires r.Valid()
    ensures var res := r.SearchByTag(tag);
      && (res.Err? <==> exists i :: 0 <= i < |r.GetAll()| && TagTest(tag)(r.GetAll()[i]).Err?)
      && (res.Ok? ==> res.value == Filter(r.GetAll(), Accepts(TagTest(tag))))
  {
    FilterCheckedMeans(r.GetAll(), TagTest(tag));
  }
}
