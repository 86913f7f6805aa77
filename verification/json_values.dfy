/** Values produced by `JSON.parse`, with the two JavaScript operations the
  * platform applies to them: property access (`parsed.key`) and `String(v)`. */
module JsonValues {
  import opened Wrappers
  import opened JsStrings

  /** A parsed JSON value. A number carries the text `String(n)` gives for it;
    * an object keeps its members in document order. */
  datatype Json =
    | JNull
    | JBool(b: bool)
    | JNumber(text: string)
    | JString(s: string)
    | JArray(items: seq<Json>)
    | JObject(members: seq<(string, Json)>)

  /** The value of the last member named `key`: `JSON.parse` keeps the later
    * of two duplicate keys. */
  function LastMember(members: seq<(string, Json)>, key: string): (r: Option<Json>)
    ensures r.None? <==> forall i :: 0 <= i < |members| ==> members[i].0 != key
    ensures r.Some? ==> (key, r.value) in members
    decreases |members|
  {
    if |members| == 0 then None
    else if members[|members| - 1].0 == key then Some(members[|members| - 1].1)
    else
      var r := LastMember(members[..|members| - 1], key);
      assert r.Some? ==> (key, r.value) in members[..|members| - 1];
      r
  }

  /** `v[key]` on a parsed value that is not `null`: `undefined` (here `None`)
    * unless `v` is an object with that member. */
  function Get(v: Json, key: string): (r: Option<Json>)
    ensures r.Some? ==> v.JObject?
  {
    match v
    case JObject(members) => LastMember(members, key)
    case _ => None
  }

  /** `Array.isArray(v[key])`. */
  predicate HasArray(v: Json, key: string) {
    Get(v, key).Some? && Get(v, key).value.JArray?
  }

  /** A JSON numeral whose value is zero: every digit before the exponent
    * is `0` ("0", "-0", "0.00", "0e5"). */
  predicate ZeroNumeral(text: string) {
    |text| == 0 || text[0] == 'e' || text[0] == 'E'
    || ((text[0] == '-' || text[0] == '0' || text[0] == '.') && ZeroNumeral(text[1..]))
  }

  /** JavaScript truthiness of a parsed value: `null`, `false`, zero and the
    * empty string are falsy; arrays and objects are always truthy. */
  predicate JsonTruthy(v: Json) {
    match v
    case JNull => false
    case JBool(b) => b
    case JNumber(text) => !ZeroNumeral(text)
    case JString(s) => s != ""
    case _ => true
  }

  /** The message of the `TypeError` thrown by reading property `key` of
    * `null`, in V8's wording (the engine of Chrome and Node). */
  function NullRead(key: string): string {
    "Cannot read properties of null (reading '" + key + "')"
  }

  /** `v || fallback` for a property that may be missing. */
  function OrElse(v: Option<Json>, fallback: Json): (r: Json)
    ensures v.Some? && JsonTruthy(v.value) ==> r == v.value
    ensures !(v.Some? && JsonTruthy(v.value)) ==> r == fallback
  {
    if v.Some? && JsonTruthy(v.value) then v.value else fallback
  }

  /** `String(v)`. An array prints its elements joined by commas, with `null`
    * elements printed as nothing; an object prints as `[object Object]`. */
  function ToJsString(v: Json): string
    decreases v, 1, 0
  {
    match v
    case JNull => "null"
    case JBool(b) => if b then "true" else "false"
    case JNumber(text) => text
    case JString(s) => s
    case JArray(items) => ArrayString(v, 0)
    case JObject(_) => "[object Object]"
  }

  /** The elements of array `v` from index `i` on, as `Array.prototype.join`
    * prints them. */
  function ArrayString(v: Json, i: nat): string
    requires v.JArray? && i <= |v.items|
    decreases v, 0, |v.items| - i
  {
    if i == |v.items| then ""
    else
      assert v.items[i] in v.items;
      var head := if v.items[i].JNull? then "" else ToJsString(v.items[i]);
      if i + 1 == |v.items| then head else head + "," + ArrayString(v, i + 1)
  }

  /** Looking up a member of an object whose keys are distinct finds its
    * value. */
  lemma {:induction false} GetDistinct(members: seq<(string, Json)>, i: nat)
    requires i < |members|
    requires forall j :: 0 <= j < |members| && j != i ==> members[j].0 != members[i].0
    ensures Get(JObject(members), members[i].0) == Some(members[i].1)
    decreases |members|
  {
    if i < |members| - 1 {
      GetDistinct(members[..|members| - 1], i);
    }
  }
}
