/**
 * Error and Response: validation of a decoded response (section 5 of the JSON-RPC 2.0
 * Specification, as this library checks it) and serialisation.
 */
module Responses {
  import opened JsonModel
  import opened Exceptions

  /** The immutable error record: code, message and any data. */
  datatype Error = Error(code: int, message: string, data: Json)

  /** What a response carries: a result value (null included) or an Error. */
  datatype Payload = Result(result: Json) | Failed(error: Error)

  datatype Response = Response(data: Payload, id: Option<Id>)

  const VersionMessage := "Invalid response: \"jsonrpc\" must be \"2.0\""
  const PayloadMessage := "Invalid response: \"result\" or \"error\" must be present"
  const IdMessage := "Invalid response: \"id\" must be present and be a string, integer, float, or null"

  const DefaultCode := -32500
  const DefaultMessage := "Unknown error"

  /** The engine's TypeErrors when an Error field has the wrong type (wording abbreviated). */
  const CodeTypeMessage := "Error::__construct(): Argument #1 ($code) must be of type int"
  const MessageTypeMessage := "Error::__construct(): Argument #2 ($message) must be of type string"

  /** "jsonrpc" is present and is exactly the string "2.0". */
  predicate VersionOk(data: Json) {
    Get(data, "jsonrpc") == Some(JStr("2.0"))
  }

  /** At least one of "result" and "error" is present (both are accepted). */
  predicate PayloadOk(data: Json) {
    Get(data, "result").Some? || Get(data, "error").Some?
  }

  /** "id" is present and is a string, int, float or null. */
  predicate IdOk(data: Json) {
    Get(data, "id").Some? && (IsId(Get(data, "id").value) || Get(data, "id").value == JNull)
  }

  /**
   * `new Error($e['code'] ?? -32500, $e['message'] ?? 'Unknown error', $e['data'] ?? null)`
   * for the value `$e` under "error". A present non-null code must be an int and a
   * present non-null message a string; otherwise the constructor's TypeError is raised.
   */
  function ErrorFrom(e: Json): (r: Outcome<Error>)
    ensures GetOrNull(e, "code") == JNull ==> r.Ok? ==> r.value.code == DefaultCode
    ensures GetOrNull(e, "message") == JNull ==> r.Ok? ==> r.value.message == DefaultMessage
    ensures r.Ok? ==> r.value.data == GetOrNull(e, "data")
    ensures r.Ok? <==> ((GetOrNull(e, "code").JInt? || GetOrNull(e, "code") == JNull)
                        && (GetOrNull(e, "message").JStr? || GetOrNull(e, "message") == JNull))
    ensures r.Ok? && GetOrNull(e, "code").JInt? ==> r.value.code == GetOrNull(e, "code").i
    ensures r.Ok? && GetOrNull(e, "message").JStr? ==> r.value.message == GetOrNull(e, "message").s
    ensures r.Raised? ==> r.failure.Thrown? && CodeOf(r.failure) == 0
  {
    var code := GetOrNull(e, "code");
    var message := GetOrNull(e, "message");
    if !(code.JInt? || code == JNull) then Raised(TypeError(CodeTypeMessage))
    else if !(message.JStr? || message == JNull) then Raised(TypeError(MessageTypeMessage))
    else
      Ok(Error(if code.JInt? then code.i else DefaultCode,
               if message.JStr? then message.s else DefaultMessage,
               GetOrNull(e, "data")))
  }

  /** `throw new JsonRcpException($message, $code)`. */
  function Reject(message: string, code: int): (r: Outcome<Response>)
    ensures r.Raised? && r.failure == Rpc(JsonRcpException(message, code, JNull))
  {
    Raised(Rpc(JsonRcpException(message, code)))
  }

  /**
   * Response::fromArray. The checks run in the order version (-32501), result/error
   * (-32502), id (-32503). When "error" is present the payload is an Error, even if
   * "result" is present too; otherwise it is the raw result.
   */
  function FromArray(data: Json): (r: Outcome<Response>)
    requires IsArray(data)
    ensures r.Ok? ==> VersionOk(data) && PayloadOk(data) && IdOk(data)
    ensures r.Ok? ==> IdJson(r.value.id) == Get(data, "id").value
    ensures r.Ok? ==> (r.value.data.Failed? <==> Get(data, "error").Some?)
    ensures r.Ok? && r.value.data.Result? ==> Get(data, "result") == Some(r.value.data.result)
    ensures r.Ok? && r.value.data.Failed? ==> ErrorFrom(Get(data, "error").value) == Ok(r.value.data.error)
    ensures r.Raised? && r.failure.Rpc? ==> r.failure.exception.code in {-32501, -32502, -32503}
    ensures VersionOk(data) && PayloadOk(data) && IdOk(data) && Get(data, "error").None? ==> r.Ok?
    ensures VersionOk(data) && PayloadOk(data) && IdOk(data) && Get(data, "error").Some? ==>
      && (r.Ok? <==> ErrorFrom(Get(data, "error").value).Ok?)
      && (r.Raised? ==> r.failure == ErrorFrom(Get(data, "error").value).failure)
  {
    if !VersionOk(data) then Reject(VersionMessage, -32501)
    else if !PayloadOk(data) then Reject(PayloadMessage, -32502)
    else if !IdOk(data) then Reject(IdMessage, -32503)
    else
      var id := IdOf(Get(data, "id").value);
      if Get(data, "error").Some? then
        match ErrorFrom(Get(data, "error").value)
        case Raised(f) => Raised(f)
        case Ok(e) => Ok(Response(Failed(e), id))
      else
        Ok(Response(Result(Get(data, "result").value), id))
  }

  /** An Error as json_encode writes the object: its public properties in order. */
  function ErrorJson(e: Error): Json {
    JObj([("code", JInt(e.code)), ("message", JStr(e.message)), ("data", e.data)])
  }

  /** Response::jsonSerialize: `jsonrpc`, then `error` or `result`, then always `id`. */
  function Serialize(r: Response): (j: Json)
    ensures j.JObj?
  {
    JObj([("jsonrpc", JStr("2.0"))]
         + (match r.data
            case Failed(e) => [("error", ErrorJson(e))]
            case Result(v) => [("result", v)])
         + [("id", IdJson(r.id))])
  }

  /** A serialised response has exactly one of `error` and `result`, and always `id`. */
  lemma SerializeShape(r: Response)
    ensures var j := Serialize(r);
      && Keys(j) == ["jsonrpc", if r.data.Failed? then "error" else "result", "id"]
      && Get(j, "jsonrpc") == Some(JStr("2.0"))
      && (Get(j, "error").Some? <==> r.data.Failed?)
      && (Get(j, "result").Some? <==> r.data.Result?)
      && (r.data.Failed? ==> Get(j, "error") == Some(ErrorJson(r.data.error)))
      && (r.data.Result? ==> Get(j, "result") == Some(r.data.result))
      && Get(j, "id") == Some(IdJson(r.id))
  {
    var j := Serialize(r);
    var ms := j.members;
    assert |ms| == 3 && ms[0] == ("jsonrpc", JStr("2.0")) && ms[2] == ("id", IdJson(r.id));
    assert ms[1] == if r.data.Failed? then ("error", ErrorJson(r.data.error)) else ("result", r.data.result);
    LookupFirst(ms, 0);
    LookupFirst(ms, 1);
    LookupFirst(ms, 2);
    LookupAbsent(ms, if r.data.Failed? then "result" else "error");
    var ks := Keys(j);
    assert |ks| == 3;
  }

  /** An Error keeps its code, message and data (of any JSON type) exactly as given. */
  lemma ErrorKeepsFields(code: int, message: string, data: Json)
    ensures var e := Error(code, message, data);
      e.code == code && e.message == message && e.data == data
    ensures ErrorJson(Error(code, message, data)).members ==
      [("code", JInt(code)), ("message", JStr(message)), ("data", data)]
  {
  }

  /** Reading back a serialised Error gives it back. */
  lemma ErrorRoundTrip(e: Error)
    ensures ErrorFrom(ErrorJson(e)) == Ok(e)
  {
    var j := ErrorJson(e);
    var ms := j.members;
    assert ms[0] == ("code", JInt(e.code)) && ms[1] == ("message", JStr(e.message)) && ms[2] == ("data", e.data);
    LookupFirst(ms, 0);
    LookupFirst(ms, 1);
    LookupFirst(ms, 2);
    assert GetOrNull(j, "code") == JInt(e.code);
    assert GetOrNull(j, "message") == JStr(e.message);
    assert GetOrNull(j, "data") == e.data;
  }

  /** Round trip: reading back a serialised response gives it back, for results and errors alike. */
  lemma RoundTrip(r: Response)
    ensures FromArray(Serialize(r)) == Ok(r)
  {
    SerializeShape(r);
    IdRoundTrip(r.id);
    if r.data.Failed? {
      ErrorRoundTrip(r.data.error);
    }
  }

  /** A missing or wrong "jsonrpc" is reported first (-32501), whatever else is wrong. */
  lemma VersionCheckedFirst(data: Json)
    requires IsArray(data) && !VersionOk(data)
    ensures FromArray(data) == Reject(VersionMessage, -32501)
  {
  }

  /** Then the payload: neither "result" nor "error" gives -32502. */
  lemma PayloadCheckedSecond(data: Json)
    requires IsArray(data) && VersionOk(data) && !PayloadOk(data)
    ensures FromArray(data) == Reject(PayloadMessage, -32502)
  {
  }

  /** Then the id: missing, or a boolean, list or object, gives -32503; an explicit null passes. */
  lemma IdCheckedThird(data: Json)
    requires IsArray(data) && VersionOk(data) && PayloadOk(data)
    ensures !IdOk(data) ==> FromArray(data) == Reject(IdMessage, -32503)
    ensures Get(data, "id") == Some(JNull) && Get(data, "error").None? ==>
      FromArray(data).Ok? && FromArray(data).value.id.None?
  {
  }

  /**
   * An error object with only a code and a message is accepted once the three checks pass:
   * the response carries that code and message, and its data is null.
   */
  lemma ErrorWithoutData(data: Json, code: int, message: string)
    requires IsArray(data) && VersionOk(data) && IdOk(data)
    requires Get(data, "error") == Some(JObj([("code", JInt(code)), ("message", JStr(message))]))
    ensures FromArray(data) == Ok(Response(Failed(Error(code, message, JNull)), IdOf(Get(data, "id").value)))
  {
    var ms := Get(data, "error").value.members;
    LookupFirst(ms, 0);
    LookupFirst(ms, 1);
    LookupAbsent(ms, "data");
  }

  /** An "error" member wins over a "result" member, and its missing fields take the defaults. */
  lemma ErrorWinsWithDefaults(data: Json)
    requires IsArray(data) && VersionOk(data) && IdOk(data)
    requires Get(data, "error").Some? && GetOrNull(Get(data, "error").value, "code") == JNull
    requires GetOrNull(Get(data, "error").value, "message") == JNull
    ensures FromArray(data) ==
      Ok(Response(Failed(Error(DefaultCode, DefaultMessage, GetOrNull(Get(data, "error").value, "data"))),
                  IdOf(Get(data, "id").value)))
  {
  }
}
