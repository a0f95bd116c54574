/**
 * Decoded JSON values, as PHP's json_decode($text, true) hands them to the library.
 *
 * A JSON list and a JSON object both become a PHP array; an object keeps its members
 * in the order they were written, so it is an ordered list of (key, value) pairs here.
 * The decoder never produces two members with the same key.
 */
module JsonModel {

  datatype Option<+T> = None | Some(value: T)

  datatype Json =
    | JNull
    | JBool(b: bool)
    | JInt(i: int)
    | JFloat(f: real)
    | JStr(s: string)
    | JArr(items: seq<Json>)
    | JObj(members: seq<(string, Json)>)

  /** PHP's is_array: a decoded list or object. */
  predicate IsArray(j: Json) {
    j.JArr? || j.JObj?
  }

  /** A PHP `array` (the type of request params). */
  type Structured = j: Json | IsArray(j) witness JArr([])

  /** A PHP `?array` (the type of an exception's data). */
  type ArrayOrNull = j: Json | j.JNull? || IsArray(j) witness JNull

  /** The value stored under `key` among `members`, if any. */
  function Lookup(members: seq<(string, Json)>, key: string): Option<Json> {
    if |members| == 0 then None
    else if members[0].0 == key then Some(members[0].1)
    else Lookup(members[1..], key)
  }

  /** The first member with a given key is the one Lookup finds. */
  lemma {:induction false} LookupFirst(members: seq<(string, Json)>, k: int)
    requires 0 <= k < |members|
    requires forall j :: 0 <= j < k ==> members[j].0 != members[k].0
    ensures Lookup(members, members[k].0) == Some(members[k].1)
  {
    if k > 0 {
      var rest := members[1..];
      assert rest[k - 1] == members[k];
      assert forall j :: 0 <= j < k - 1 ==> rest[j] == members[j + 1];
      LookupFirst(rest, k - 1);
    }
  }

  /** A key no member has is not found. */
  lemma {:induction false} LookupAbsent(members: seq<(string, Json)>, key: string)
    requires forall k :: 0 <= k < |members| ==> members[k].0 != key
    ensures Lookup(members, key).None?
  {
    if |members| > 0 {
      assert forall k :: 0 <= k < |members| - 1 ==> members[1..][k] == members[k + 1];
      LookupAbsent(members[1..], key);
    }
  }

  /**
   * `array_key_exists($key, $data)` together with `$data[$key]`, for a string key.
   * Only objects have string keys; the keys of a list are its integer positions.
   */
  function Get(j: Json, key: string): Option<Json> {
    if j.JObj? then Lookup(j.members, key) else None
  }

  /** `$data[$key] ?? null`: an absent key and a null value read alike. */
  function GetOrNull(j: Json, key: string): (r: Json)
    ensures r != JNull ==> Get(j, key) == Some(r)
    ensures Get(j, key).None? ==> r == JNull
  {
    match Get(j, key)
    case Some(v) => v
    case None => JNull
  }

  /** The keys of an object, in order (empty for anything else). */
  function Keys(j: Json): (ks: seq<string>)
    ensures j.JObj? ==> |ks| == |j.members|
  {
    if j.JObj? then KeysOf(j.members) else []
  }

  function KeysOf(members: seq<(string, Json)>): (ks: seq<string>)
    ensures |ks| == |members|
    ensures forall k :: 0 <= k < |members| ==> ks[k] == members[k].0
  {
    if |members| == 0 then [] else [members[0].0] + KeysOf(members[1..])
  }

  /** PHP's count() of an array. */
  function Count(j: Json): nat
    requires IsArray(j)
  {
    if j.JArr? then |j.items| else |j.members|
  }

  /** The values `foreach ($data as $item)` visits, in order. */
  function Elements(j: Json): (xs: seq<Json>)
    requires IsArray(j)
    ensures |xs| == Count(j)
    ensures j.JObj? ==> forall k :: 0 <= k < |xs| ==> xs[k] == j.members[k].1
  {
    if j.JArr? then j.items else ValuesOf(j.members)
  }

  function ValuesOf(members: seq<(string, Json)>): (vs: seq<Json>)
    ensures |vs| == |members|
    ensures forall k :: 0 <= k < |members| ==> vs[k] == members[k].1
  {
    if |members| == 0 then [] else [members[0].1] + ValuesOf(members[1..])
  }

  /** json_encode of a PHP list of objects: each item encoded by `encode`, in order. */
  function EncodeAll<T>(xs: seq<T>, encode: T -> Json): (js: seq<Json>)
    ensures |js| == |xs|
    ensures forall k :: 0 <= k < |xs| ==> js[k] == encode(xs[k])
  {
    if |xs| == 0 then [] else [encode(xs[0])] + EncodeAll(xs[1..], encode)
  }

  /**
   * `isset($data[0])`: element 0 exists and is not null. For an object, the member key
   * "0" is the integer key 0 once decoded.
   */
  predicate HasFirstElement(j: Json)
    requires IsArray(j)
  {
    if j.JArr? then |j.items| > 0 && j.items[0] != JNull
    else Lookup(j.members, "0").Some? && Lookup(j.members, "0").value != JNull
  }

  /** PHP's truthiness of a string: everything but "" and "0". */
  predicate StringTruthy(s: string) {
    s != "" && s != "0"
  }

  /** PHP's truthiness, as `if ($x)` tests it. */
  predicate Truthy(j: Json) {
    match j
    case JNull => false
    case JBool(b) => b
    case JInt(i) => i != 0
    case JFloat(f) => f != 0.0
    case JStr(s) => StringTruthy(s)
    case JArr(xs) => |xs| > 0
    case JObj(ms) => |ms| > 0
  }

  /** A request or response id: string, int or float (null is `None`). */
  datatype Id = IStr(s: string) | IInt(i: int) | IFloat(f: real)

  /** `is_string($x) || is_int($x) || is_float($x)`. */
  predicate IsId(j: Json) {
    j.JStr? || j.JInt? || j.JFloat?
  }

  /** The JSON value of a (possibly null) id. */
  function IdJson(id: Option<Id>): (j: Json)
    ensures id.None? <==> j == JNull
    ensures id.Some? ==> IsId(j)
  {
    match id
    case None => JNull
    case Some(IStr(s)) => JStr(s)
    case Some(IInt(i)) => JInt(i)
    case Some(IFloat(f)) => JFloat(f)
  }

  /** The id a JSON id value (or null) stands for. */
  function IdOf(j: Json): (id: Option<Id>)
    requires IsId(j) || j == JNull
    ensures IdJson(id) == j
  {
    match j
    case JStr(s) => Some(IStr(s))
    case JInt(i) => Some(IInt(i))
    case JFloat(f) => Some(IFloat(f))
    case JNull => None
  }

  lemma IdRoundTrip(id: Option<Id>)
    ensures IdOf(IdJson(id)) == id
  {
  }

  /** `if ($id)` on a string|int|float|null id. */
  predicate IdTruthy(id: Option<Id>) {
    Truthy(IdJson(id))
  }

  /** Exactly null, 0, 0.0, "" and "0" are falsy ids. */
  lemma FalsyIds(id: Option<Id>)
    ensures !IdTruthy(id) <==>
      id in {None, Some(IInt(0)), Some(IFloat(0.0)), Some(IStr("")), Some(IStr("0"))}
  {
  }
}
