/**
 * JavaScript values and plain objects as the portal's JSON files and browser
 * storage hold them, with the few object operations the source uses: property
 * access, truthiness, `a || b`, rest-destructuring and first-match search.
 */
module JsValues {
  import opened JsStrings

  /** A primitive JavaScript value; numbers are integers (NaN and fractions are not modelled). */
  datatype Value = Undefined | Null | Bool(b: bool) | Num(n: int) | Str(s: string)

  /** A plain object: property name to value. A missing property reads as `undefined`. */
  type Record = map<string, Value>

  /** `r[key]` */
  function Field(r: Record, key: string): Value {
    if key in r then r[key] else Undefined
  }

  /** JavaScript truthiness: `undefined`, `null`, `false`, `0` and `""` are falsy. */
  predicate Truthy(v: Value) {
    match v
    case Undefined => false
    case Null => false
    case Bool(b) => b
    case Num(n) => n != 0
    case Str(s) => s != ""
  }

  /** `a || b` */
  function Or(a: Value, b: Value): Value {
    if Truthy(a) then a else b
  }

  /** `String(v)` */
  function ToJsString(v: Value): string {
    match v
    case Undefined => "undefined"
    case Null => "null"
    case Bool(b) => if b then "true" else "false"
    case Num(n) => IntToString(n)
    case Str(s) => s
  }

  /** `const { [key]: _, ...rest } = r`: every property but `key`, with its value. */
  function Without(r: Record, key: string): (rest: Record)
    ensures key !in rest && rest.Keys == r.Keys - {key}
    ensures forall k :: k != key ==> Field(rest, k) == Field(r, k)
  {
    r - {key}
  }

  /**
   * `{...c, ...dados, id}` (equally `Object.assign({}, c, dados, {id})`): `dados`
   * overrides every property but `id`, which is set to `id`.
   */
  function MergeKeepingId(c: Record, dados: Record, id: Value): (r: Record)
    ensures Field(r, "id") == id
    ensures forall k :: k != "id" && k in dados ==> Field(r, k) == dados[k]
    ensures forall k :: k != "id" && k !in dados ==> Field(r, k) == Field(c, k)
    ensures r.Keys == c.Keys + dados.Keys + {"id"}
  {
    (c + dados)["id" := id]
  }

  /** Index `i` holds the first record of `s` whose `key` is `v` (strict equality). */
  predicate FirstWith(s: seq<Record>, i: int, key: string, v: Value) {
    0 <= i < |s| && Field(s[i], key) == v && forall j :: 0 <= j < i ==> Field(s[j], key) != v
  }

  /** Only one index can be the first match. */
  lemma FirstWithUnique(s: seq<Record>, i: int, key: string, v: Value)
    requires FirstWith(s, i, key, v)
    ensures forall j :: FirstWith(s, j, key, v) ==> j == i
  {
  }

  predicate NoneWith(s: seq<Record>, key: string, v: Value) {
    forall j :: 0 <= j < |s| ==> Field(s[j], key) != v
  }

  /** `s.findIndex(r => r[key] === v)`: the first match, or -1 when there is none. */
  function IndexOf(s: seq<Record>, key: string, v: Value): (i: int)
    ensures -1 <= i < |s|
    ensures i == -1 <==> NoneWith(s, key, v)
    ensures i != -1 ==> FirstWith(s, i, key, v)
  {
    if s == [] then -1
    else if Field(s[0], key) == v then 0
    else
      var k := IndexOf(s[1..], key, v);
      if k == -1 then -1 else k + 1
  }

  /** `s.find(r => r[key] === v)` */
  function Find(s: seq<Record>, key: string, v: Value): (r: Option<Record>)
    ensures r.None? <==> NoneWith(s, key, v)
    ensures r.Some? ==> exists i :: FirstWith(s, i, key, v) && r.value == s[i]
  {
    var i := IndexOf(s, key, v);
    if i == -1 then None else Some(s[i])
  }

  /** `s.splice(i, 1)` applied to a copy: every element but the one at `i`, in order. */
  function RemoveAt<T>(s: seq<T>, i: int): (r: seq<T>)
    requires 0 <= i < |s|
    ensures |r| == |s| - 1
    ensures forall j :: 0 <= j < i ==> r[j] == s[j]
    ensures forall j :: i <= j < |r| ==> r[j] == s[j + 1]
  {
    s[..i] + s[i + 1..]
  }

  /**
   * What one key of the browser's `localStorage` holds: nothing, a text that
   * `JSON.parse` rejects, or a serialised array of records.
   */
  datatype Slot = Empty | Garbled | Saved(records: seq<Record>)

  /** `JSON.parse(item)` guarded by `try`: an absent or unparseable item reads as `[]`. */
  function Load(slot: Slot): (rs: seq<Record>)
    ensures !slot.Saved? ==> rs == []
    ensures slot.Saved? ==> rs == slot.records
  {
    if slot.Saved? then slot.records else []
  }
}
