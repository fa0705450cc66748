/** The values `json_decode($text, true)` yields, seen the way the service code
    inspects them: a JSON object or list both become a PHP array (`is_array`),
    keys are looked up with `$a['key']` (the last duplicate wins), `isset`
    rejects a missing key and a null value, and `empty` on an array means it
    has no elements. The decoder and encoder themselves are not modelled; the
    operations that need them take them as parameters. */
module Json {
  import opened Wrappers

  datatype Json =
    | JNull
    | JBool(b: bool)
    | JNumber(literal: string)
    | JString(s: string)
    | JArray(items: seq<Json>)
    | JObject(members: seq<(string, Json)>)

  /** `json_decode($text, true)`; None stands for every text it rejects. */
  type Decoder = string -> Option<Json>

  /** `is_array($v)`. */
  predicate IsArray(v: Json) {
    v.JArray? || v.JObject?
  }

  /** The value stored under `key` in a list of members, the last one winning
      as it does when PHP builds an array from a JSON object. */
  function Lookup(members: seq<(string, Json)>, key: string): (r: Option<Json>)
    ensures r.Some? <==> exists i :: 0 <= i < |members| && members[i].0 == key
    ensures r.Some? ==> exists i :: 0 <= i < |members| && members[i] == (key, r.value) &&
                                    forall j :: i < j < |members| ==> members[j].0 != key
  {
    if |members| == 0 then None
    else if members[|members| - 1].0 == key then Some(members[|members| - 1].1)
    else
      var r := Lookup(members[..|members| - 1], key);
      assert forall i :: 0 <= i < |members| - 1 ==> members[..|members| - 1][i] == members[i];
      r
  }

  /** `$v['key']` for a non-numeric key: only an object has such keys. */
  function Field(v: Json, key: string): Option<Json> {
    if v.JObject? then Lookup(v.members, key) else None
  }

  /** `$v[0]`: the first element of a list, or the member "0" of an object
      (PHP turns the key "0" into the integer 0). */
  function Index0(v: Json): Option<Json> {
    match v
    case JArray(items) => if |items| > 0 then Some(items[0]) else None
    case JObject(members) => Lookup(members, "0")
    case _ => None
  }

  /** `isset($v['key'])`: the key is there and its value is not null. */
  predicate Isset(v: Json, key: string) {
    Field(v, key).Some? && Field(v, key).value != JNull
  }

  /** `empty($v)` for an array. */
  predicate IsEmptyArray(v: Json)
    requires IsArray(v)
  {
    if v.JArray? then |v.items| == 0 else |v.members| == 0
  }

  /** The truthiness of a PHP array in `if ($v)`: it has at least one element. */
  predicate IsTruthyArray(v: Json) {
    IsArray(v) && !IsEmptyArray(v)
  }

  /** An array with a member that `isset` sees passes `if ($v)`. */
  lemma IssetMakesTruthy(v: Json, key: string)
    requires Isset(v, key)
    ensures IsTruthyArray(v)
  {
    assert v.JObject?;
    var i :| 0 <= i < |v.members| && v.members[i].0 == key;
  }
}
