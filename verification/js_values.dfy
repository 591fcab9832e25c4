/**
 * JSON-like JavaScript values as the store and the widget configs hold
 * them, with the property-access rules of the sources: optional chaining,
 * plain reads that throw on `undefined`/`null`, strict-mode writes, spread.
 * Numbers are integers; objects are their own enumerable properties.
 */
module JsValues {
  import opened Wrappers

  datatype Value =
    | Undefined
    | Null
    | Bool(b: bool)
    | Num(n: int)
    | Str(s: string)
    | Arr(elems: seq<Value>)
    | Obj(fields: map<string, Value>)

  /** The errors a property access can raise. */
  datatype JsError = TypeError

  type Props = map<string, Value>

  /** JavaScript truthiness. */
  predicate Truthy(v: Value) {
    match v
    case Undefined => false
    case Null => false
    case Bool(b) => b
    case Num(n) => n != 0
    case Str(s) => s != ""
    case _ => true
  }

  predicate Nullish(v: Value) {
    v.Undefined? || v.Null?
  }

  /** `m[k]` on an object's own properties. */
  function Field(m: Props, k: string): (r: Value)
    ensures k !in m ==> r == Undefined
  {
    if k in m then m[k] else Undefined
  }

  /** `v?.[k]`: `undefined` on a nullish or non-object value, else the property. */
  function Get(v: Value, k: string): (r: Value)
    ensures !v.Obj? ==> r == Undefined
    ensures v.Obj? ==> r == Field(v.fields, k)
  {
    if v.Obj? then Field(v.fields, k) else Undefined
  }

  /** `v[k]` without optional chaining: a TypeError on `undefined` or `null`. */
  function Read(v: Value, k: string): (r: Result<Value, JsError>)
    ensures r.Err? <==> Nullish(v)
    ensures r.Ok? ==> r.value == Get(v, k)
  {
    if Nullish(v) then Err(TypeError) else Ok(Get(v, k))
  }

  /** `v[k] = x` in strict-mode code: objects take the property, anything else throws. */
  function Assign(v: Value, k: string, x: Value): (r: Result<Value, JsError>)
    ensures r.Ok? <==> v.Obj?
    ensures r.Ok? ==> r.value == Obj(v.fields[k := x])
  {
    if v.Obj? then Ok(Obj(v.fields[k := x])) else Err(TypeError)
  }

  /** `{...v}`: the own properties of an object, nothing for any other value. */
  function Spread(v: Value): (r: Props)
    ensures v.Obj? ==> r == v.fields
    ensures !v.Obj? ==> r == map[]
  {
    if v.Obj? then v.fields else map[]
  }

  /** `{...a, ...b}`: every key of `b` wins, every other key of `a` is kept. */
  function Merge(a: Props, b: Props): (r: Props)
    ensures r.Keys == a.Keys + b.Keys
    ensures forall k :: k in b ==> r[k] == b[k]
    ensures forall k :: k in a && k !in b ==> r[k] == a[k]
  {
    a + b
  }

  /** `delete v[k]`: an object loses the property; on any other value it is a no-op. */
  function Delete(v: Value, k: string): (r: Value)
    ensures v.Obj? ==> r.Obj? && r.fields.Keys == v.fields.Keys - {k}
    ensures v.Obj? ==> forall j :: j in r.fields ==> r.fields[j] == v.fields[j]
    ensures !v.Obj? ==> r == v
    ensures forall j :: Get(r, j) == if j == k then Undefined else Get(v, j)
  {
    if v.Obj? then Obj(v.fields - {k}) else v
  }

  /**
   * The number a value stands for in `<`, `<=` and `-`: numbers themselves,
   * `null` as 0, booleans as 0 or 1; `None` for NaN (`undefined`, objects,
   * arrays and strings, numeric strings included).
   */
  function ToNumber(v: Value): (r: Option<int>)
    ensures v.Num? ==> r == Some(v.n)
    ensures Nullish(v) ==> r == if v.Null? then Some(0) else None
  {
    match v
    case Num(n) => Some(n)
    case Null => Some(0)
    case Bool(b) => Some(if b then 1 else 0)
    case _ => None
  }

  /** Merging the same properties a second time changes nothing. */
  lemma {:induction false} MergeIdempotent(a: Props, b: Props)
    ensures Merge(Merge(a, b), b) == Merge(a, b)
  {
    var once := Merge(a, b);
    assert forall k :: k in Merge(once, b) ==> Merge(once, b)[k] == once[k];
  }

  /** `a || b`: the first operand when it is truthy, else the second. */
  function JsOr(a: Value, b: Value): (r: Value)
    ensures Truthy(a) ==> r == a
    ensures !Truthy(a) ==> r == b
  {
    if Truthy(a) then a else b
  }
}
