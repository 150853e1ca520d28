/** The parsed JSON tree the detector's reply is read through (Jackson's
    `JsonNode`), with the accessor semantics the ingestion code relies on. */
module Json {
  import opened Common
  import Text

  /** A JSON value; object fields keep their textual order. */
  datatype Json =
    | JNull
    | JBool(b: bool)
    | JInt(i: int)
    | JReal(r: real)
    | JString(s: string)
    | JArray(items: seq<Json>)
    | JObject(fields: seq<(string, Json)>)

  /** The value of the first field named `key`. */
  function Lookup(fields: seq<(string, Json)>, key: string): (v: Option<Json>)
    ensures v.Some? <==> exists k :: 0 <= k < |fields| && fields[k].0 == key
    ensures v.Some? ==> exists k :: 0 <= k < |fields| && fields[k] == (key, v.value)
    decreases |fields|
  {
    if fields == [] then None
    else if fields[0].0 == key then Some(fields[0].1)
    else
      var v := Lookup(fields[1..], key);
      assert forall k :: 1 <= k < |fields| ==> fields[1..][k - 1] == fields[k];
      v
  }

  /** A field appended at the end is found only when no earlier field has its name. */
  lemma {:induction false} LookupAppend(fields: seq<(string, Json)>, k: string, v: Json, key: string)
    ensures Lookup(fields + [(k, v)], key)
         == if Lookup(fields, key).Some? then Lookup(fields, key) else if key == k then Some(v) else None
    decreases |fields|
  {
    var all := fields + [(k, v)];
    if fields == [] {
      assert all == [(k, v)] && all[1..] == [];
    } else {
      assert all[0] == fields[0] && all[1..] == fields[1..] + [(k, v)];
      LookupAppend(fields[1..], k, v, key);
    }
  }

  /** `node.get(key)`: absent unless `node` is an object with that field. */
  function Get(node: Json, key: string): Option<Json>
  {
    if node.JObject? then Lookup(node.fields, key) else None
  }

  /** `node.has(key) && !node.get(key).isNull()`, the guard every reader uses. */
  function Present(node: Json, key: string): (v: Option<Json>)
    ensures v.Some? ==> Get(node, key) == v && !v.value.JNull?
    ensures v.None? ==> Get(node, key).None? || Get(node, key) == Some(JNull)
  {
    match Get(node, key)
    case Some(x) => if x.JNull? then None else Some(x)
    case None => None
  }

  /** Iteration `for (JsonNode c : node)`: array elements, object values,
      nothing for a scalar. */
  function Children(node: Json): (cs: seq<Json>)
    ensures node.JArray? ==> cs == node.items
    ensures node.JObject? ==> |cs| == |node.fields|
    ensures !node.JArray? && !node.JObject? ==> cs == []
  {
    match node
    case JArray(items) => items
    case JObject(fields) => seq(|fields|, k requires 0 <= k < |fields| => fields[k].1)
    case _ => []
  }

  /** `node.size()`. */
  function Size(node: Json): nat
  {
    match node
    case JArray(items) => |items|
    case JObject(fields) => |fields|
    case _ => 0
  }

  /** `node.asInt()`: numbers converted, booleans as 1 or 0, everything else 0.
      Text nodes are parsed by Jackson; the model reads them as 0. */
  function AsInt(node: Json): int
  {
    match node
    case JInt(i) => i
    case JReal(r) => Truncate(r)
    case JBool(b) => if b then 1 else 0
    case _ => 0
  }

  /** `node.asDouble()`, with the same conventions as `AsInt`. */
  function AsDouble(node: Json): real
  {
    match node
    case JInt(i) => i as real
    case JReal(r) => r
    case JBool(b) => if b then 1.0 else 0.0
    case _ => 0.0
  }

  /** `node.asBoolean()`: a boolean's value, a non-zero integer, or the text "true". */
  function AsBoolean(node: Json): bool
  {
    match node
    case JBool(b) => b
    case JInt(i) => i != 0
    case JString(s) => Text.Trim(s) == "true"
    case _ => false
  }

  /** `node.asText()`: a string's own value, scalars in their canonical form,
      containers as the empty string. Real numbers are rendered as "" (their
      `Double.toString` form is not modelled). */
  function AsText(node: Json): string
  {
    match node
    case JString(s) => s
    case JInt(i) => Text.IntText(i)
    case JBool(b) => if b then "true" else "false"
    case JNull => "null"
    case _ => ""
  }

  /** The set of field names of an object (`fieldNames()`), empty for other nodes. */
  function FieldNames(node: Json): set<string>
  {
    if node.JObject? then set k | 0 <= k < |node.fields| :: node.fields[k].0 else {}
  }

  lemma FieldNamesLookup(node: Json, key: string)
    requires node.JObject?
    ensures key in FieldNames(node) <==> Get(node, key).Some?
  {
    if Get(node, key).Some? {
      var k :| 0 <= k < |node.fields| && node.fields[k].0 == key;
      assert node.fields[k].0 in FieldNames(node);
    }
  }
}
