/**
 * Request, with its two specialised constructors Notification and ProcedureCall:
 * validation from a decoded array (sections 4 and 4.1 of the JSON-RPC 2.0
 * Specification) and serialisation back to one.
 */
module Requests {
  import opened JsonModel
  import opened Exceptions

  /** A request value. `params` is a PHP ?array; `id` is string|int|float|null. */
  datatype Request = Request(methodName: string, params: Option<Structured>, id: Option<Id>)

  /** The params as PHP sees the property: the array, or null. */
  function ParamsJson(p: Option<Structured>): (j: Json)
    ensures p.None? <==> j == JNull
  {
    match p
    case None => JNull
    case Some(a) => a
  }

  /** A Notification is a Request whose id is always null. */
  function Notification(methodName: string, params: Option<Structured>): (r: Request)
    ensures r.id.None?
    ensures r.methodName == methodName && r.params == params
  {
    Request(methodName, params, None)
  }

  /** A ProcedureCall is a Request with a string, int or float id, never null. */
  function ProcedureCall(methodName: string, params: Option<Structured>, id: Id): (r: Request)
    ensures r.id.Some? && r.id.value == id
    ensures r.methodName == methodName && r.params == params
  {
    Request(methodName, params, Some(id))
  }

  const VersionMessage := "Invalid JSON-RPC version"
  const MethodMessage := "Method is required and must be a string"
  const ParamsMessage := "Params must be a structured value or omitted"
  const IdMessage := "Id must be a string, integer, float, or omitted"

  /** "jsonrpc" is present and is exactly the string "2.0". */
  predicate VersionOk(data: Json) {
    Get(data, "jsonrpc") == Some(JStr("2.0"))
  }

  /** "method" is present and is a string (possibly empty). */
  predicate MethodOk(data: Json) {
    Get(data, "method").Some? && Get(data, "method").value.JStr?
  }

  /** "params" is absent or an array; an explicit null is refused. */
  predicate ParamsOk(data: Json) {
    Get(data, "params").Some? ==> IsArray(Get(data, "params").value)
  }

  /** "id" is absent or a string, int or float; an explicit null is refused. */
  predicate IdOk(data: Json) {
    Get(data, "id").Some? ==> IsId(Get(data, "id").value)
  }

  /** All four checks of Request::fromArray pass. */
  predicate WellFormed(data: Json) {
    VersionOk(data) && MethodOk(data) && ParamsOk(data) && IdOk(data)
  }

  /** `throw new InvalidRequestException($message)`. */
  function Invalid(message: string): (r: Outcome<Request>)
    ensures r.Raised? && r.failure == Rpc(InvalidRequestException(message))
  {
    Raised(Rpc(InvalidRequestException(message)))
  }

  /**
   * Request::fromArray. The checks run in the order version, method, params, id; the
   * first that fails decides the message. On success the fields are copied unchanged,
   * an absent params or id becoming null.
   */
  function FromArray(data: Json): (r: Outcome<Request>)
    requires IsArray(data)
    ensures r.Ok? <==> WellFormed(data)
    ensures r.Ok? ==> JStr(r.value.methodName) == GetOrNull(data, "method")
    ensures r.Ok? ==> ParamsJson(r.value.params) == GetOrNull(data, "params")
    ensures r.Ok? ==> IdJson(r.value.id) == GetOrNull(data, "id")
    ensures r.Raised? ==> r.failure.Rpc? && KindOf(r.failure.exception.code) == Some(InvalidRequest)
    ensures r.Raised? ==> r.failure.exception.data == JNull
  {
    if !VersionOk(data) then Invalid(VersionMessage)
    else if !MethodOk(data) then Invalid(MethodMessage)
    else if !ParamsOk(data) then Invalid(ParamsMessage)
    else if !IdOk(data) then Invalid(IdMessage)
    else
      var params: Option<Structured> :=
        if Get(data, "params").Some? then Some(Get(data, "params").value) else None;
      var id := if Get(data, "id").Some? then IdOf(Get(data, "id").value) else None;
      Ok(Request(Get(data, "method").value.s, params, id))
  }

  /** Request::jsonSerialize: the members `jsonrpc`, `method`, then `params` and `id` when truthy. */
  function Serialize(r: Request): (j: Json)
    ensures j.JObj?
  {
    JObj([("jsonrpc", JStr("2.0")), ("method", JStr(r.methodName))]
         + (if Truthy(ParamsJson(r.params)) then [("params", ParamsJson(r.params))] else [])
         + (if IdTruthy(r.id) then [("id", IdJson(r.id))] else []))
  }

  /** What survives a serialisation: empty params and falsy ids are dropped. */
  function Normalized(r: Request): (n: Request)
    ensures n.methodName == r.methodName
    ensures n.params.Some? <==> Truthy(ParamsJson(r.params))
    ensures n.id.Some? <==> IdTruthy(r.id)
    ensures n.params.Some? ==> n.params == r.params
    ensures n.id.Some? ==> n.id == r.id
  {
    Request(r.methodName,
            if Truthy(ParamsJson(r.params)) then r.params else None,
            if IdTruthy(r.id) then r.id else None)
  }

  /** The members of a serialised request, and the values it carries. */
  lemma SerializeShape(r: Request)
    ensures var j := Serialize(r);
      && Keys(j) == ["jsonrpc", "method"]
                    + (if Truthy(ParamsJson(r.params)) then ["params"] else [])
                    + (if IdTruthy(r.id) then ["id"] else [])
      && Get(j, "jsonrpc") == Some(JStr("2.0"))
      && Get(j, "method") == Some(JStr(r.methodName))
      && (Get(j, "params").Some? <==> Truthy(ParamsJson(r.params)))
      && (Get(j, "params").Some? ==> Get(j, "params").value == ParamsJson(r.params))
      && (Get(j, "id").Some? <==> IdTruthy(r.id))
      && (Get(j, "id").Some? ==> Get(j, "id").value == IdJson(r.id))
  {
    var j := Serialize(r);
    var ms := j.members;
    var n := |ms|;
    var hasP := Truthy(ParamsJson(r.params));
    var hasI := IdTruthy(r.id);
    assert ms[0] == ("jsonrpc", JStr("2.0")) && ms[1] == ("method", JStr(r.methodName));
    assert n == 2 + (if hasP then 1 else 0) + (if hasI then 1 else 0);
    assert hasP ==> ms[2] == ("params", ParamsJson(r.params));
    assert hasI ==> ms[n - 1] == ("id", IdJson(r.id));
    assert forall k :: 2 <= k < n ==> ms[k].0 == (if hasP && k == 2 then "params" else "id");
    LookupFirst(ms, 0);
    LookupFirst(ms, 1);
    if hasP { LookupFirst(ms, 2); } else { LookupAbsent(ms, "params"); }
    if hasI { LookupFirst(ms, n - 1); } else { LookupAbsent(ms, "id"); }
    var ks := Keys(j);
    var want := ["jsonrpc", "method"] + (if hasP then ["params"] else []) + (if hasI then ["id"] else []);
    assert |ks| == n == |want|;
    assert forall k :: 0 <= k < n ==> ks[k] == want[k];
  }

  /**
   * Round trip: reading back a serialised request gives it back, except that empty
   * params come back as null and a falsy id (0, 0.0, "", "0") comes back as null.
   */
  lemma RoundTrip(r: Request)
    ensures FromArray(Serialize(r)) == Ok(Normalized(r))
  {
    SerializeShape(r);
    var j := Serialize(r);
    assert WellFormed(j);
    var got := FromArray(j).value;
    assert got.methodName == r.methodName;
    assert ParamsJson(got.params) == ParamsJson(Normalized(r).params);
    assert IdJson(got.id) == IdJson(Normalized(r).id);
    IdRoundTrip(got.id);
    IdRoundTrip(Normalized(r).id);
  }

  /** The round trip is exact precisely when params are null or non-empty and the id is null or truthy. */
  lemma ExactRoundTrip(r: Request)
    ensures FromArray(Serialize(r)) == Ok(r) <==>
      (r.params.None? || Truthy(ParamsJson(r.params))) && (r.id.None? || IdTruthy(r.id))
  {
    RoundTrip(r);
  }

  /** Serialising the request read back from a serialisation gives the same serialisation. */
  lemma SerializeIdempotent(r: Request)
    ensures FromArray(Serialize(r)).Ok?
    ensures Serialize(FromArray(Serialize(r)).value) == Serialize(r)
  {
    RoundTrip(r);
  }

  /** A missing or wrong "jsonrpc" is reported first, whatever else is wrong. */
  lemma VersionCheckedFirst(data: Json)
    requires IsArray(data) && !VersionOk(data)
    ensures FromArray(data) == Invalid(VersionMessage)
  {
  }

  /** The method check comes next; an empty method name passes it. */
  lemma MethodCheckedSecond(data: Json)
    requires IsArray(data) && VersionOk(data)
    ensures !MethodOk(data) ==> FromArray(data) == Invalid(MethodMessage)
    ensures Get(data, "method") == Some(JStr("")) && ParamsOk(data) && IdOk(data) ==>
      FromArray(data).Ok? && FromArray(data).value.methodName == ""
  {
  }

  /** Then params: a present scalar or null params is refused. */
  lemma ParamsCheckedThird(data: Json)
    requires IsArray(data) && VersionOk(data) && MethodOk(data)
    ensures !ParamsOk(data) ==> FromArray(data) == Invalid(ParamsMessage)
    ensures Get(data, "params") == Some(JNull) ==> !ParamsOk(data)
  {
  }

  /** Last the id: a present null, boolean, list or object id is refused. */
  lemma IdCheckedLast(data: Json)
    requires IsArray(data) && VersionOk(data) && MethodOk(data) && ParamsOk(data)
    ensures !IdOk(data) ==> FromArray(data) == Invalid(IdMessage)
    ensures Get(data, "id").Some? && !IsId(Get(data, "id").value) ==> !IdOk(data)
  {
  }

  /** A Notification never serialises an id, and reads back as a request with a null id. */
  lemma NotificationSerialization(methodName: string, params: Option<Structured>)
    ensures Get(Serialize(Notification(methodName, params)), "id").None?
    ensures (Get(Serialize(Notification(methodName, params)), "params").Some?) <==> Truthy(ParamsJson(params))
    ensures FromArray(Serialize(Notification(methodName, params))).Ok?
    ensures FromArray(Serialize(Notification(methodName, params))).value.id.None?
  {
    SerializeShape(Notification(methodName, params));
    RoundTrip(Notification(methodName, params));
  }

  /**
   * A ProcedureCall serialises its id exactly when the id is truthy: an id of 0 stays on
   * the value but is dropped from the serialisation, so it reads back as a notification.
   */
  lemma ProcedureCallSerialization(methodName: string, params: Option<Structured>, id: Id)
    ensures Get(Serialize(ProcedureCall(methodName, params, id)), "id").Some? <==> IdTruthy(Some(id))
    ensures IdTruthy(Some(id)) ==>
      Get(Serialize(ProcedureCall(methodName, params, id)), "id") == Some(IdJson(Some(id)))
    ensures FromArray(Serialize(ProcedureCall(methodName, params, id))).Ok?
    ensures FromArray(Serialize(ProcedureCall(methodName, params, id))).value.id ==
      (if IdTruthy(Some(id)) then Some(id) else None)
  {
    SerializeShape(ProcedureCall(methodName, params, id));
    RoundTrip(ProcedureCall(methodName, params, id));
  }
}
