/** The decoded JSON values the ETL job receives from the HTTP operator,
    with the parts of Python's object model the transform relies on:
    `type()`, truthiness, `in` on a dict and `dict.get`. */
module Json {
  import opened Wrappers

  /** An exact decimal number, `mantissa * 10^-scale`. */
  datatype Decimal = Decimal(mantissa: int, scale: nat)

  /** A JSON value as Python's `json` module decodes it. An object is an
      association list so that the dict's insertion (iteration) order is kept. */
  datatype Json =
    | JNull
    | JBool(b: bool)
    | JInt(i: int)
    | JFloat(f: Decimal)
    | JString(s: string)
    | JArray(items: seq<Json>)
    | JObject(members: seq<(string, Json)>)

  /** The Python type of a decoded value, as reported by `type(...)`. */
  datatype PyType = NoneType | Bool | Int | Float | Str | List | Dict

  function TypeOf(j: Json): PyType {
    match j
    case JNull => NoneType
    case JBool(_) => Bool
    case JInt(_) => Int
    case JFloat(_) => Float
    case JString(_) => Str
    case JArray(_) => List
    case JObject(_) => Dict
  }

  /** Python's `bool(value)`: None, False, zero, and empty strings, lists
      and dicts are falsy; everything else is truthy. */
  predicate Truthy(j: Json) {
    match j
    case JNull => false
    case JBool(b) => b
    case JInt(i) => i != 0
    case JFloat(d) => d.mantissa != 0
    case JString(s) => s != ""
    case JArray(a) => a != []
    case JObject(m) => m != []
  }

  /** `list(d.keys())`, in iteration order. */
  function Keys(members: seq<(string, Json)>): (ks: seq<string>)
    ensures |ks| == |members|
    ensures forall i :: 0 <= i < |members| ==> ks[i] == members[i].0
  {
    if members == [] then [] else [members[0].0] + Keys(members[1..])
  }

  /** `d.get(key)`: the value stored under `key`, or None when `key` is absent. */
  function Get(members: seq<(string, Json)>, key: string): Option<Json> {
    if members == [] then None
    else if members[0].0 == key then Some(members[0].1)
    else Get(members[1..], key)
  }

  /** `key in d`. */
  predicate HasKey(members: seq<(string, Json)>, key: string) {
    Get(members, key).Some?
  }

  /** `key in d` holds exactly for the keys `list(d.keys())` lists, and
      `d.get(key)` returns a value stored under `key`. */
  lemma {:induction false} HasKeyListed(members: seq<(string, Json)>, key: string)
    ensures HasKey(members, key) <==> key in Keys(members)
    ensures HasKey(members, key) ==> (key, Get(members, key).value) in members
  {
    if members != [] {
      HasKeyListed(members[1..], key);
      assert Keys(members) == [members[0].0] + Keys(members[1..]);
      if members[0].0 != key && HasKey(members, key) {
        var i :| 0 <= i < |members[1..]| && members[1..][i] == (key, Get(members, key).value);
        assert members[i + 1] == members[1..][i];
      }
    }
  }

  /** Every key of the association list occurs once, as in a Python dict. */
  predicate DistinctKeys(members: seq<(string, Json)>) {
    forall i, j :: 0 <= i < j < |members| ==> members[i].0 != members[j].0
  }

  /** With distinct keys, `get` returns the value stored beside the key. */
  lemma {:induction false} GetDistinct(members: seq<(string, Json)>, i: nat)
    requires DistinctKeys(members)
    requires i < |members|
    ensures Get(members, members[i].0) == Some(members[i].1)
  {
    if i > 0 {
      assert members[1..][i - 1] == members[i];
      assert DistinctKeys(members[1..]) by {
        forall a, b | 0 <= a < b < |members| - 1
          ensures members[1..][a].0 != members[1..][b].0
        {
          assert members[1..][a] == members[a + 1] && members[1..][b] == members[b + 1];
        }
      }
      GetDistinct(members[1..], i - 1);
    }
  }
}
