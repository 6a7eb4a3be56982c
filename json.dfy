/**
 * The slice of a JSON value that the desk programs look at. Both the
 * `json` crate (`JsonValue`) and `serde_json` (`Value`) are read through
 * the same accessors: indexing an object by key gives `null` when the key
 * is absent or the value is not an object, `as_str`/`as_i64` give an
 * optional result, and `members()` iterates an array (and nothing
 * otherwise). Parsing text into a value and dumping a value to text are
 * library code and stay parameters of the operations that use them.
 */
module Json {
  import opened Common

  /** Numbers are kept integral where the text is, and as reals (standing for `f64`) where it is not. */
  datatype Json =
    | JNull
    | JBool(b: bool)
    | JNumber(n: int)
    | JFloat(x: real)
    | JString(s: string)
    | JArray(items: seq<Json>)
    | JObject(fields: seq<(string, Json)>)

  const I64_MIN: int := -0x8000_0000_0000_0000
  const I64_MAX: int := 0x7FFF_FFFF_FFFF_FFFF

  predicate HasKey(fields: seq<(string, Json)>, key: string)
  {
    exists i :: 0 <= i < |fields| && fields[i].0 == key
  }

  /** `value[key]`: the first field named `key`, or null. */
  function Get(value: Json, key: string): (r: Json)
    ensures value.JObject? && HasKey(value.fields, key) ==>
      exists i :: 0 <= i < |value.fields| && value.fields[i] == (key, r)
    ensures !value.JObject? || !HasKey(value.fields, key) ==> r == JNull
  {
    if value.JObject? then Lookup(value.fields, key) else JNull
  }

  function Lookup(fields: seq<(string, Json)>, key: string): (r: Json)
    ensures HasKey(fields, key) ==> exists i :: 0 <= i < |fields| && fields[i] == (key, r)
    ensures !HasKey(fields, key) ==> r == JNull
  {
    if |fields| == 0 then JNull
    else if fields[0].0 == key then fields[0].1
    else
      var r := Lookup(fields[1..], key);
      assert HasKey(fields[1..], key) ==> HasKey(fields, key) by {
        if HasKey(fields[1..], key) {
          var i :| 0 <= i < |fields[1..]| && fields[1..][i].0 == key;
          assert fields[i + 1].0 == key;
        }
      }
      assert HasKey(fields, key) ==> HasKey(fields[1..], key) by {
        if HasKey(fields, key) {
          var i :| 0 <= i < |fields| && fields[i].0 == key;
          assert i > 0 && fields[1..][i - 1].0 == key;
        }
      }
      r
  }

  /** `as_str()`. */
  function AsStr(value: Json): (r: Option<string>)
    ensures r.Some? <==> value.JString?
    ensures r.Some? ==> value == JString(r.value)
  {
    if value.JString? then Some(value.s) else None
  }

  /** `as_i64()`: integral numbers that fit in 64 signed bits. */
  function AsI64(value: Json): (r: Option<int>)
    ensures r.Some? <==> value.JNumber? && I64_MIN <= value.n <= I64_MAX
    ensures r.Some? ==> value == JNumber(r.value)
  {
    if value.JNumber? && I64_MIN <= value.n <= I64_MAX then Some(value.n) else None
  }

  /** `as_f64()` of `serde_json`: any number, integral or not. */
  function AsF64(value: Json): (r: Option<real>)
    ensures r.Some? <==> value.JNumber? || value.JFloat?
    ensures value.JNumber? ==> r == Some(value.n as real)
    ensures value.JFloat? ==> r == Some(value.x)
  {
    match value
      case JNumber(n) => Some(n as real)
      case JFloat(x) => Some(x)
      case _ => None
  }

  /** `members()` of the `json` crate: array items, nothing for other values. */
  function Members(value: Json): (r: seq<Json>)
    ensures value.JArray? ==> r == value.items
    ensures !value.JArray? ==> r == []
  {
    if value.JArray? then value.items else []
  }

  /** `as_array()` of `serde_json`. */
  function AsArray(value: Json): (r: Option<seq<Json>>)
    ensures r.Some? <==> value.JArray?
    ensures r.Some? ==> r.value == value.items
  {
    if value.JArray? then Some(value.items) else None
  }

  /** `{"kind": kind}`. */
  function KindOnly(kind: string): Json
  {
    JObject([("kind", JString(kind))])
  }

  /** `value["kind"].as_str()`. */
  function KindOf(value: Json): Option<string>
  {
    AsStr(Get(value, "kind"))
  }

  /** `Get` finds the first field with the key. */
  lemma {:induction false} LookupFirst(fields: seq<(string, Json)>, key: string, k: nat)
    requires k < |fields| && fields[k].0 == key
    requires forall j :: 0 <= j < k ==> fields[j].0 != key
    ensures HasKey(fields, key) && Lookup(fields, key) == fields[k].1
    decreases k
  {
    if k > 0 {
      LookupFirst(fields[1..], key, k - 1);
    }
  }

  lemma KindOnlyHasKind(kind: string)
    ensures KindOf(KindOnly(kind)) == Some(kind)
  {
  }

  /** A serialiser writes compact JSON: never a raw newline byte. */
  ghost predicate CompactDump(dump: Json -> seq<byte>)
  {
    forall value :: NoNewline(dump(value))
  }
}
