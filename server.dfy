/**
 * JsonRpcServer: decoding, shape check, batch detection, per-item dispatch through the
 * procedure registry, response suppression for falsy ids and batch aggregation
 * (section 6 of the JSON-RPC 2.0 Specification).
 */
module Server {
  import opened JsonModel
  import opened Exceptions
  import Requests
  import Responses

  /** The arguments `RemoteProcedure::execute(array $params, $id)` receives. */
  datatype Call = Call(methodName: string, params: Structured, id: Option<Id>)

  /**
   * The procedure container as the server uses it: `has($name)`, whether `get($name)` is a
   * RemoteProcedure, and what `execute` returns or throws for given arguments.
   */
  datatype Registry = Registry(
    has: string -> bool,
    isProcedure: string -> bool,
    execute: Call -> Outcome<Json>)

  /** The engine's TypeErrors that escape `handle` (wording abbreviated). */
  const ItemTypeMessage := "JsonRpcServer::executeProcedure(): Argument #1 ($data) must be of type array"
  const IdTypeMessage := "JsonRpcServer::createErrorResponse(): Argument #2 ($id) must be of type string|float|int|null"

  /** createErrorResponse: a Response carrying the exception's code, message and data. */
  function CreateErrorResponse(e: Exception, id: Option<Id>): (r: Responses.Response)
    ensures r.data.Failed? && r.id == id
    ensures r.data.error.code == e.code && r.data.error.message == e.message
    ensures r.data.error.data == e.data
  {
    Responses.Response(Responses.Failed(Responses.Error(e.code, e.message, e.data)), id)
  }

  /**
   * A value passed as the `string|float|int|null $id` of createErrorResponse. Without
   * strict types PHP turns a boolean into the int 1 or 0; a list or object is a TypeError.
   */
  function CoerceId(j: Json): (r: Option<Option<Id>>)
    ensures r.None? <==> IsArray(j)
    ensures (IsId(j) || j == JNull) ==> r == Some(IdOf(j))
    ensures j.JBool? ==> r == Some(Some(IInt(if j.b then 1 else 0)))
  {
    match j
    case JBool(b) => Some(Some(IInt(if b then 1 else 0)))
    case JArr(_) => None
    case JObj(_) => None
    case _ => Some(IdOf(j))
  }

  /** The id an error response gets: `$id ?? $data['id'] ?? null`. */
  function ErrorId(parsed: Option<Id>, data: Json): Json {
    if parsed.Some? then IdJson(parsed) else GetOrNull(data, "id")
  }

  /** The catch blocks of executeProcedure: an error Response for `f`, or the TypeError an array id raises. */
  function ErrorFor(f: Failure, rawId: Json): (r: Outcome<Option<Responses.Response>>)
    ensures r.Raised? <==> IsArray(rawId)
    ensures r.Ok? ==> r.value == Some(CreateErrorResponse(AsJsonRcpException(f), CoerceId(rawId).value))
  {
    match CoerceId(rawId)
    case None => Raised(TypeError(IdTypeMessage))
    case Some(id) => Ok(Some(CreateErrorResponse(AsJsonRcpException(f), id)))
  }

  /** `$request->params ?? []`. */
  function ParamsOrEmpty(p: Option<Structured>): Structured {
    match p
    case Some(a) => a
    case None => JArr([])
  }

  /** The message of the InvalidMethodException for an unknown or unusable method. */
  function InvalidMethodMessage(name: string): string {
    "Invalid method: " + name
  }

  /** The call to `execute` an item makes, if it gets that far. */
  function Invocation(reg: Registry, data: Json): (c: Option<Call>)
    requires IsArray(data)
    ensures c.Some? <==>
      Requests.FromArray(data).Ok?
      && reg.has(Requests.FromArray(data).value.methodName)
      && reg.isProcedure(Requests.FromArray(data).value.methodName)
  {
    match Requests.FromArray(data)
    case Raised(_) => None
    case Ok(req) =>
      if reg.has(req.methodName) && reg.isProcedure(req.methodName) then
        Some(Call(req.methodName, ParamsOrEmpty(req.params), req.id))
      else None
  }

  /**
   * executeProcedure for one decoded item: validate, look the method up, execute, then
   * answer with no Response for a falsy id or `Response($result, $id)` otherwise. Every
   * failure on the way becomes an error Response.
   */
  function ExecuteProcedure(reg: Registry, data: Json): (r: Outcome<Option<Responses.Response>>)
    requires IsArray(data)
    ensures r.Ok? && r.value.Some? && r.value.value.data.Result? ==>
      && Requests.FromArray(data).Ok?
      && IdTruthy(Requests.FromArray(data).value.id)
      && r.value.value.id == Requests.FromArray(data).value.id
    ensures r.Ok? && r.value.None? ==>
      Requests.FromArray(data).Ok? && !IdTruthy(Requests.FromArray(data).value.id)
    ensures r.Raised? ==> r.failure.Thrown? && CodeOf(r.failure) == 0
  {
    match Requests.FromArray(data)
    case Raised(f) => ErrorFor(f, ErrorId(None, data))
    case Ok(req) =>
      match Invocation(reg, data)
      case None =>
        ErrorFor(Rpc(InvalidMethodException(InvalidMethodMessage(req.methodName))), ErrorId(req.id, data))
      case Some(call) =>
        match reg.execute(call)
        case Raised(f) => ErrorFor(f, ErrorId(req.id, data))
        case Ok(result) =>
          if !IdTruthy(req.id) then Ok(None)
          else Ok(Some(Responses.Response(Responses.Result(result), req.id)))
  }

  /** `list + [x]` when an item produced a Response, `list` when it produced none. */
  function Append(rs: seq<Responses.Response>, o: Option<Responses.Response>): seq<Responses.Response> {
    if o.Some? then rs + [o.value] else rs
  }

  /** Puts the responses `acc` in front of what the rest of a batch produces. */
  function Prepend(acc: seq<Responses.Response>, rest: Outcome<seq<Responses.Response>>): Outcome<seq<Responses.Response>> {
    match rest
    case Raised(f) => Raised(f)
    case Ok(rs) => Ok(acc + rs)
  }

  /**
   * The batch loop of `handle`, as a filter-map over the items in order: each item's
   * Response, if it produced one. A non-array item, or an array id met while building an
   * error Response, raises a TypeError that ends the loop.
   */
  function Aggregate(reg: Registry, items: seq<Json>): Outcome<seq<Responses.Response>> {
    if |items| == 0 then Ok([])
    else if !IsArray(items[0]) then Raised(TypeError(ItemTypeMessage))
    else
      match ExecuteProcedure(reg, items[0])
      case Raised(f) => Raised(f)
      case Ok(o) => Prepend(Append([], o), Aggregate(reg, items[1..]))
  }

  /** The reply `handle` encodes for a non-batch request. */
  function SingleReply(o: Outcome<Option<Responses.Response>>): Outcome<Option<Json>> {
    match o
    case Raised(f) => Raised(f)
    case Ok(None) => Ok(None)
    case Ok(Some(r)) => Ok(Some(Responses.Serialize(r)))
  }

  /** The reply `handle` encodes for a batch: the list of Responses, or nothing if it is empty. */
  function BatchReply(o: Outcome<seq<Responses.Response>>): Outcome<Option<Json>> {
    match o
    case Raised(f) => Raised(f)
    case Ok(rs) => if |rs| == 0 then Ok(None) else Ok(Some(JArr(EncodeAll(rs, Responses.Serialize))))
  }

  /** The error Responses `handle` sends for undecodable text and for a bad top-level value. */
  function ParseErrorReply(): Json {
    Responses.Serialize(CreateErrorResponse(InvalidJsonException(), None))
  }

  function InvalidRequestReply(): Json {
    Responses.Serialize(CreateErrorResponse(InvalidRequestException("Invalid request"), None))
  }

  /**
   * JsonRpcServer::handle. `decode` stands for json_decode (None when it throws); the
   * result is the value json_encode turns into the reply text, None for no reply, or the
   * TypeError that escapes.
   */
  method Handle(reg: Registry, text: string, decode: string -> Option<Json>) returns (r: Outcome<Option<Json>>)
    ensures decode(text).None? ==> r == Ok(Some(ParseErrorReply()))
    ensures decode(text).Some? && (!IsArray(decode(text).value) || Count(decode(text).value) == 0) ==>
      r == Ok(Some(InvalidRequestReply()))
    ensures decode(text).Some? && IsArray(decode(text).value) && Count(decode(text).value) > 0 ==>
      var data := decode(text).value;
      r == if HasFirstElement(data) then BatchReply(Aggregate(reg, Elements(data)))
           else SingleReply(ExecuteProcedure(reg, data))
  {
    var decoded := decode(text);
    if decoded.None? {
      return Ok(Some(ParseErrorReply()));
    }
    var data := decoded.value;
    if !IsArray(data) || Count(data) == 0 {
      return Ok(Some(InvalidRequestReply()));
    }
    if !HasFirstElement(data) {
      var single := ExecuteProcedure(reg, data);
      return SingleReply(single);
    }
    var responses := RunBatch(reg, Elements(data));
    return BatchReply(responses);
  }

  /** One step of Aggregate, seen from position i of the batch. */
  lemma AggregateStep(reg: Registry, items: seq<Json>, i: nat)
    requires i < |items|
    ensures Aggregate(reg, items[i..]) ==
      if !IsArray(items[i]) then Raised(TypeError(ItemTypeMessage))
      else match ExecuteProcedure(reg, items[i])
           case Raised(f) => Raised(f)
           case Ok(o) => Prepend(Append([], o), Aggregate(reg, items[i + 1..]))
  {
    assert items[i..][0] == items[i];
    assert items[i..][1..] == items[i + 1..];
  }

  /** Moving one item's Response from the rest of the batch onto the list built so far. */
  lemma PrependAppend(acc: seq<Responses.Response>, o: Option<Responses.Response>,
                      rest: Outcome<seq<Responses.Response>>)
    ensures Prepend(acc, Prepend(Append([], o), rest)) == Prepend(Append(acc, o), rest)
  {
    if rest.Ok? && o.None? {
      assert acc + ([] + rest.value) == acc + rest.value;
    }
    if rest.Ok? && o.Some? {
      assert Append([], o) == [o.value];
      assert acc + ([o.value] + rest.value) == (acc + [o.value]) + rest.value;
    }
  }

  /**
   * The `foreach` loop of `handle` over a batch: runs the items in order, appends each
   * Response an item produces, and stops at the first TypeError.
   */
  method RunBatch(reg: Registry, items: seq<Json>) returns (r: Outcome<seq<Responses.Response>>)
    ensures r == Aggregate(reg, items)
  {
    var response: seq<Responses.Response> := [];
    var i := 0;
    assert items[i..] == items;
    assert Aggregate(reg, items).Ok? ==> [] + Aggregate(reg, items).value == Aggregate(reg, items).value;
    while i < |items|
      invariant 0 <= i <= |items|
      invariant Aggregate(reg, items) == Prepend(response, Aggregate(reg, items[i..]))
    {
      var item := items[i];
      AggregateStep(reg, items, i);
      if !IsArray(item) {
        return Raised(TypeError(ItemTypeMessage));
      }
      var result := ExecuteProcedure(reg, item);
      if result.Raised? {
        return Raised(result.failure);
      }
      PrependAppend(response, result.value, Aggregate(reg, items[i + 1..]));
      response := Append(response, result.value);
      i := i + 1;
    }
    assert items[i..] == [] && response + [] == response;
    return Ok(response);
  }

  /** Undecodable text gets exactly this reply: -32700, its default message, null data, null id. */
  lemma ParseErrorReplyContents()
    ensures ParseErrorReply() ==
      JObj([("jsonrpc", JStr("2.0")),
            ("error", JObj([("code", JInt(-32700)),
                            ("message", JStr("Invalid json received by the server")),
                            ("data", JNull)])),
            ("id", JNull)])
  {
  }

  /** A non-array or empty top-level value gets exactly this reply: -32600 "Invalid request", null id. */
  lemma InvalidRequestReplyContents()
    ensures InvalidRequestReply() ==
      JObj([("jsonrpc", JStr("2.0")),
            ("error", JObj([("code", JInt(-32600)), ("message", JStr("Invalid request")), ("data", JNull)])),
            ("id", JNull)])
  {
  }

  /** Once an item has been read as a request, an error Response for it carries the request's id. */
  lemma ParsedErrorId(data: Json, req: Requests.Request)
    requires IsArray(data) && Requests.FromArray(data) == Ok(req)
    ensures CoerceId(ErrorId(req.id, data)) == Some(req.id)
  {
    if req.id.None? {
      assert GetOrNull(data, "id") == JNull;
    }
  }

  /**
   * An item that fails request validation gets an InvalidRequest error Response whose id is
   * the item's raw "id" (null if absent), and never reaches the registry: any two
   * registries give the same answer and no procedure is executed.
   */
  lemma InvalidItemIgnoresRegistry(reg: Registry, other: Registry, data: Json)
    requires IsArray(data) && Requests.FromArray(data).Raised?
    ensures ExecuteProcedure(reg, data) == ExecuteProcedure(other, data)
    ensures Invocation(reg, data).None?
    ensures !IsArray(GetOrNull(data, "id")) ==>
      var r := ExecuteProcedure(reg, data);
      && r.Ok? && r.value.Some? && r.value.value.data.Failed?
      && r.value.value.data.error.code == -32600
      && r.value.value.id == CoerceId(GetOrNull(data, "id")).value
  {
  }

  /** A valid request whose method is not registered, or not a RemoteProcedure, gets -32601 "Invalid method: <name>" with its id. */
  lemma UnknownMethod(reg: Registry, data: Json)
    requires IsArray(data) && Requests.FromArray(data).Ok?
    requires var name := Requests.FromArray(data).value.methodName; !reg.has(name) || !reg.isProcedure(name)
    ensures var req := Requests.FromArray(data).value;
      ExecuteProcedure(reg, data) ==
        Ok(Some(CreateErrorResponse(InvalidMethodException(InvalidMethodMessage(req.methodName)), req.id)))
    ensures Invocation(reg, data).None?
  {
    ParsedErrorId(data, Requests.FromArray(data).value);
  }

  /**
   * A valid request for a registered procedure is executed with its params (or [] when
   * they are absent) and its id, null for a notification. A returned result is answered
   * with `Response(result, id)` when the id is truthy and with nothing when it is falsy;
   * a thrown failure becomes an error Response with its code and message (and its data
   * when it is a JsonRcpException), whatever the id.
   */
  lemma Execution(reg: Registry, data: Json)
    requires IsArray(data) && Invocation(reg, data).Some?
    ensures var req := Requests.FromArray(data).value;
      var call := Invocation(reg, data).value;
      && call == Call(req.methodName, ParamsOrEmpty(req.params), req.id)
      && ExecuteProcedure(reg, data) ==
           match reg.execute(call)
           case Ok(v) => if IdTruthy(req.id) then Ok(Some(Responses.Response(Responses.Result(v), req.id))) else Ok(None)
           case Raised(f) => Ok(Some(CreateErrorResponse(AsJsonRcpException(f), req.id)))
  {
    ParsedErrorId(data, Requests.FromArray(data).value);
  }

  /** The request object of the standard's `subtract` example. */
  function SubtractCall(): Json {
    JObj([("jsonrpc", JStr("2.0")), ("method", JStr("subtract")),
          ("params", JArr([JInt(42), JInt(23)])), ("id", JInt(1))])
  }

  /** Its members, as `$data[...]` reads them. */
  lemma SubtractCallMembers()
    ensures Get(SubtractCall(), "jsonrpc") == Some(JStr("2.0"))
    ensures Get(SubtractCall(), "method") == Some(JStr("subtract"))
    ensures Get(SubtractCall(), "params") == Some(JArr([JInt(42), JInt(23)]))
    ensures Get(SubtractCall(), "id") == Some(JInt(1))
  {
    var ms := SubtractCall().members;
    assert ms[0].0 == "jsonrpc" && ms[1].0 == "method" && ms[2].0 == "params" && ms[3].0 == "id";
    LookupFirst(ms, 0);
    LookupFirst(ms, 1);
    LookupFirst(ms, 2);
    LookupFirst(ms, 3);
  }

  /** It has no member "0", so `isset($data[0])` is false. */
  lemma SubtractCallIsSingle()
    ensures !HasFirstElement(SubtractCall())
  {
    var ms := SubtractCall().members;
    assert forall k :: 0 <= k < |ms| ==> ms[k].0 != "0";
    LookupAbsent(ms, "0");
  }

  /** It is a single request (no element 0) that validates with id 1. */
  lemma SubtractCallParses()
    ensures !HasFirstElement(SubtractCall())
    ensures Requests.FromArray(SubtractCall()) ==
      Ok(Requests.Request("subtract", Some(JArr([JInt(42), JInt(23)])), Some(IInt(1))))
  {
    SubtractCallMembers();
    SubtractCallIsSingle();
  }

  /**
   * The standard's own example: `{"jsonrpc":"2.0","method":"subtract","params":[42,23],"id":1}`
   * for a registered `subtract` returning 19 is answered with exactly
   * `{"jsonrpc":"2.0","result":19,"id":1}`.
   */
  lemma SubtractExample(reg: Registry)
    requires reg.has("subtract") && reg.isProcedure("subtract")
    requires reg.execute(Call("subtract", JArr([JInt(42), JInt(23)]), Some(IInt(1)))) == Ok(JInt(19))
    ensures !HasFirstElement(SubtractCall())
    ensures SingleReply(ExecuteProcedure(reg, SubtractCall())) ==
      Ok(Some(JObj([("jsonrpc", JStr("2.0")), ("result", JInt(19)), ("id", JInt(1))])))
  {
    SubtractCallParses();
    var call := Call("subtract", JArr([JInt(42), JInt(23)]), Some(IInt(1)));
    assert Invocation(reg, SubtractCall()) == Some(call);
    Execution(reg, SubtractCall());
    var answer := Responses.Response(Responses.Result(JInt(19)), Some(IInt(1)));
    assert ExecuteProcedure(reg, SubtractCall()) == Ok(Some(answer));
    assert IdJson(answer.id) == JInt(1);
    assert [("jsonrpc", JStr("2.0"))] + [("result", JInt(19))] + [("id", JInt(1))] ==
      [("jsonrpc", JStr("2.0")), ("result", JInt(19)), ("id", JInt(1))];
  }

  /**
   * A serialised Notification sent to the server: it is executed with a null id and gets
   * no Response when the procedure returns; a failure still gets an error Response with a
   * null id, and so does an unknown method.
   */
  lemma NotificationDispatch(reg: Registry, name: string, params: Option<Structured>)
    ensures var data := Requests.Serialize(Requests.Notification(name, params));
      var usable := reg.has(name) && reg.isProcedure(name);
      && (usable ==>
            Invocation(reg, data) ==
              Some(Call(name, ParamsOrEmpty(Requests.Normalized(Requests.Notification(name, params)).params), None)))
      && (usable && reg.execute(Invocation(reg, data).value).Ok? ==> ExecuteProcedure(reg, data) == Ok(None))
      && (ExecuteProcedure(reg, data).Ok? && ExecuteProcedure(reg, data).value.Some? ==>
            ExecuteProcedure(reg, data).value.value.id.None? && ExecuteProcedure(reg, data).value.value.data.Failed?)
  {
    var n := Requests.Notification(name, params);
    var data := Requests.Serialize(n);
    Requests.RoundTrip(n);
    if reg.has(name) && reg.isProcedure(name) {
      Execution(reg, data);
    } else {
      UnknownMethod(reg, data);
    }
  }

  /**
   * A serialised ProcedureCall sent to the server: with a truthy id it is executed with
   * that id and a returned result is echoed with it; with a falsy id (0, 0.0, "", "0")
   * the id is lost in serialisation, the call is executed with a null id and gets no Response.
   */
  lemma ProcedureCallDispatch(reg: Registry, name: string, params: Option<Structured>, id: Id)
    requires reg.has(name) && reg.isProcedure(name)
    ensures var data := Requests.Serialize(Requests.ProcedureCall(name, params, id));
      var sentId := if IdTruthy(Some(id)) then Some(id) else None;
      && Invocation(reg, data).Some? && Invocation(reg, data).value.id == sentId
      && (reg.execute(Invocation(reg, data).value).Ok? ==>
            ExecuteProcedure(reg, data) ==
              if IdTruthy(Some(id))
              then Ok(Some(Responses.Response(Responses.Result(reg.execute(Invocation(reg, data).value).value), Some(id))))
              else Ok(None))
  {
    var c := Requests.ProcedureCall(name, params, id);
    Requests.RoundTrip(c);
    Execution(reg, Requests.Serialize(c));
  }

  /**
   * A batch is answered piecewise: the Responses to `a + b` are those to `a` followed by
   * those to `b`, and a TypeError in `a` ends the batch before `b` runs.
   */
  lemma {:induction false} AggregateAppend(reg: Registry, a: seq<Json>, b: seq<Json>)
    ensures Aggregate(reg, a + b) ==
      match Aggregate(reg, a)
      case Raised(f) => Raised(f)
      case Ok(ra) => Prepend(ra, Aggregate(reg, b))
  {
    if |a| == 0 {
      assert a + b == b;
      if Aggregate(reg, b).Ok? {
        assert [] + Aggregate(reg, b).value == Aggregate(reg, b).value;
      }
    } else {
      assert (a + b)[0] == a[0];
      assert (a + b)[1..] == a[1..] + b;
      if IsArray(a[0]) && ExecuteProcedure(reg, a[0]).Ok? {
        AggregateAppend(reg, a[1..], b);
        var o := ExecuteProcedure(reg, a[0]).value;
        var first := Append([], o);
        if Aggregate(reg, a[1..]).Ok? && Aggregate(reg, b).Ok? {
          var ra := Aggregate(reg, a[1..]).value;
          var rb := Aggregate(reg, b).value;
          assert first + (ra + rb) == (first + ra) + rb;
        }
      }
    }
  }

  /** A batch of one item is answered by that item's Response, if any. */
  lemma AggregateSingle(reg: Registry, item: Json)
    requires IsArray(item)
    ensures Aggregate(reg, [item]) ==
      match ExecuteProcedure(reg, item)
      case Raised(f) => Raised(f)
      case Ok(o) => Ok(Append([], o))
  {
    assert [item][1..] == [];
    if ExecuteProcedure(reg, item).Ok? {
      var first := Append([], ExecuteProcedure(reg, item).value);
      assert first + [] == first;
    }
  }

  /** The batch raises exactly when some item is not an array or raises on its own. */
  lemma {:induction false} AggregateRaises(reg: Registry, items: seq<Json>)
    ensures Aggregate(reg, items).Raised? <==>
      exists k :: 0 <= k < |items| && (!IsArray(items[k]) || ExecuteProcedure(reg, items[k]).Raised?)
  {
    if |items| > 0 {
      AggregateRaises(reg, items[1..]);
      assert forall k :: 1 <= k < |items| ==> items[k] == items[1..][k - 1];
      if exists k :: 1 <= k < |items| && (!IsArray(items[k]) || ExecuteProcedure(reg, items[k]).Raised?) {
        var k :| 1 <= k < |items| && (!IsArray(items[k]) || ExecuteProcedure(reg, items[k]).Raised?);
        assert items[1..][k - 1] == items[k];
      }
    }
  }

  /** When no item produces a Response (all are successful notifications), the batch gets no reply at all, not an empty list. */
  lemma {:induction false} AllSuppressed(reg: Registry, items: seq<Json>)
    requires forall k :: 0 <= k < |items| ==> IsArray(items[k]) && ExecuteProcedure(reg, items[k]) == Ok(None)
    ensures Aggregate(reg, items) == Ok([])
    ensures BatchReply(Aggregate(reg, items)) == Ok(None)
  {
    if |items| > 0 {
      assert forall k :: 1 <= k < |items| ==> items[k] == items[1..][k - 1];
      AllSuppressed(reg, items[1..]);
      var none: seq<Responses.Response> := [];
      assert Append([], None) == none && none + none == none;
    }
  }

  /**
   * A batch of two calls around a notification, all registered and returning: two
   * Responses, in the order of the calls, and none for the notification.
   */
  lemma MixedBatch(reg: Registry, first: Requests.Request, note: Requests.Request, last: Requests.Request)
    requires IdTruthy(first.id) && IdTruthy(last.id) && note.id.None?
    requires forall r :: r in [first, note, last] ==>
      reg.has(r.methodName) && reg.isProcedure(r.methodName)
      && reg.execute(Call(r.methodName, ParamsOrEmpty(Requests.Normalized(r).params), r.id)).Ok?
    ensures var batch := [Requests.Serialize(first), Requests.Serialize(note), Requests.Serialize(last)];
      var answer := Aggregate(reg, batch);
      && answer.Ok? && |answer.value| == 2
      && answer.value[0].id == first.id && answer.value[0].data.Result?
      && answer.value[1].id == last.id && answer.value[1].data.Result?
  {
    var items := [Requests.Serialize(first), Requests.Serialize(note), Requests.Serialize(last)];
    forall r | r in [first, note, last]
      ensures Invocation(reg, Requests.Serialize(r)) ==
        Some(Call(r.methodName, ParamsOrEmpty(Requests.Normalized(r).params), Requests.Normalized(r).id))
    {
      Requests.RoundTrip(r);
    }
    Execution(reg, items[0]);
    Execution(reg, items[1]);
    Execution(reg, items[2]);
    Requests.RoundTrip(first);
    Requests.RoundTrip(note);
    Requests.RoundTrip(last);
    AggregateAppend(reg, [items[0]], [items[1], items[2]]);
    AggregateAppend(reg, [items[1]], [items[2]]);
    AggregateSingle(reg, items[0]);
    AggregateSingle(reg, items[1]);
    AggregateSingle(reg, items[2]);
    assert [items[0]] + [items[1], items[2]] == items;
    assert [items[1]] + [items[2]] == [items[1], items[2]];
  }
}
