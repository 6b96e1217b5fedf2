/** JSON values as the endpoint sees them after `JSON.parse`, together with the
    JavaScript coercions the endpoint applies to them: truthiness, property
    reads, the `in` operator and `String(...)`. */
module JsValue {
  import opened Outcomes
  import opened Decimal

  /** A parsed JSON document. Numbers are integers; objects keep their members
      in textual order, duplicates included. */
  datatype Json =
    | JNull
    | JBool(b: bool)
    | JNum(n: int)
    | JStr(s: string)
    | JArr(items: seq<Json>)
    | JObj(fields: seq<(string, Json)>)

  /** JavaScript truthiness: `null`, `false`, `0` and `""` are falsy. */
  predicate Truthy(v: Json) {
    match v
    case JNull => false
    case JBool(b) => b
    case JNum(n) => n != 0
    case JStr(s) => s != ""
    case _ => true
  }

  /** Truthiness of a possibly `undefined` value. */
  predicate TruthyOpt(v: Option<Json>) {
    v.Some? && Truthy(v.value)
  }

  predicate HasField(fields: seq<(string, Json)>, key: string) {
    exists i | 0 <= i < |fields| :: fields[i].0 == key
  }

  /** Value of member `key`; with duplicate members the last one wins, as with `JSON.parse`. */
  function Field(fields: seq<(string, Json)>, key: string): (r: Option<Json>)
    ensures r.Some? <==> HasField(fields, key)
    ensures r.Some? ==> exists i | 0 <= i < |fields| ::
      fields[i] == (key, r.value) && forall j | i < j < |fields| :: fields[j].0 != key
  {
    if |fields| == 0 then None
    else if fields[|fields| - 1].0 == key then Some(fields[|fields| - 1].1)
    else
      var r := Field(fields[..|fields| - 1], key);
      assert forall i | 0 <= i < |fields| - 1 :: fields[..|fields| - 1][i] == fields[i];
      r
  }

  /** `v[key]` on a value that is not `null`: only objects carry the members the endpoint reads. */
  function Prop(v: Json, key: string): (r: Option<Json>)
    ensures r.Some? ==> v.JObj?
  {
    match v
    case JObj(fields) => Field(fields, key)
    case _ => None
  }

  /** `String(v)`: arrays join their elements with commas, writing `null` elements as empty text. */
  function ToJsString(v: Json): string
    decreases v, 1
  {
    match v
    case JNull => "null"
    case JBool(b) => if b then "true" else "false"
    case JNum(n) => IntToString(n)
    case JStr(s) => s
    case JArr(items) => JoinItems(items)
    case JObj(_) => "[object Object]"
  }

  function JoinItems(items: seq<Json>): string
    decreases items, 0
  {
    if |items| == 0 then ""
    else
      var head := if items[0] == JNull then "" else ToJsString(items[0]);
      if |items| == 1 then head else head + "," + JoinItems(items[1..])
  }

  /** `%s` of `util.format`: `undefined` for a missing value, `String(v)` otherwise. */
  function Display(v: Option<Json>): string {
    match v
    case None => "undefined"
    case Some(x) => ToJsString(x)
  }

  /** Looking up a key in members extended by one more member. */
  lemma FieldSnoc(fields: seq<(string, Json)>, key: string, value: Json, k: string)
    ensures Field(fields + [(key, value)], k) == if key == k then Some(value) else Field(fields, k)
  {
    assert (fields + [(key, value)])[..|fields|] == fields;
  }
}
