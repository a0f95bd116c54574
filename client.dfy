/**
 * JsonRpcClient: sending one request or a batch through a transport and reading the
 * reply back as Responses. JSON text is not modelled: the transport is handed the
 * JSON value that json_encode would write, and decoding reply text is an oracle.
 */
module Client {
  import opened JsonModel
  import opened Exceptions
  import Requests
  import Responses

  /** TransportInterface::send for the message given: the reply text, null, or a failure. */
  type Transport = Json -> Outcome<Option<string>>

  /** json_decode($text, true, 512, JSON_THROW_ON_ERROR): the value, or the JsonException. */
  type Decoder = string -> Outcome<Json>

  /** The engine's TypeError when Response::fromArray is given something other than an array. */
  const ArgumentTypeMessage := "Response::fromArray(): Argument #1 ($data) must be of type array"

  /** `if (!$responseData)` on a ?string reply: null, "" and "0" are falsy. */
  predicate ReplyTruthy(reply: Option<string>) {
    reply.Some? && StringTruthy(reply.value)
  }

  /** Response::fromArray called on a decoded value of any type. */
  function ParseResponse(j: Json): (r: Outcome<Responses.Response>)
    ensures IsArray(j) ==> r == Responses.FromArray(j)
    ensures !IsArray(j) ==> r == Raised(TypeError(ArgumentTypeMessage))
  {
    if IsArray(j) then Responses.FromArray(j) else Raised(TypeError(ArgumentTypeMessage))
  }

  /**
   * The two catch blocks around the client's work: a JsonRcpException is rethrown as it
   * is, any other Throwable as a JsonRcpException with its message and code.
   */
  function Rethrow<T>(o: Outcome<T>): (r: Outcome<T>)
    ensures o.Ok? ==> r == o
    ensures o.Raised? ==> r == Raised(Rpc(AsJsonRcpException(o.failure)))
  {
    match o
    case Ok(v) => Ok(v)
    case Raised(f) => Raised(Rpc(AsJsonRcpException(f)))
  }

  /** A client call: the messages handed to the transport, and what the call returns or throws. */
  datatype Exchange<+T> = Exchange(sent: seq<Json>, result: Outcome<T>)

  /** The body of `send` inside its try block, for the reply the transport gave. */
  function Receive(reply: Outcome<Option<string>>, decode: Decoder): Outcome<Option<Responses.Response>> {
    match reply
    case Raised(f) => Raised(f)
    case Ok(text) =>
      if !ReplyTruthy(text) then Ok(None)
      else
        match decode(text.value)
        case Raised(f) => Raised(f)
        case Ok(j) =>
          match ParseResponse(j)
          case Raised(f) => Raised(f)
          case Ok(r) => Ok(Some(r))
  }

  /**
   * JsonRpcClient::send. The request's serialisation is passed to the transport exactly
   * once. A falsy reply gives null; otherwise the decoded reply is read by
   * Response::fromArray. Whatever fails, the caller sees a JsonRcpException: the one
   * thrown, or one carrying the message and code of the other Throwable.
   */
  function Send(request: Requests.Request, transport: Transport, decode: Decoder)
    : (x: Exchange<Option<Responses.Response>>)
    ensures x.sent == [Requests.Serialize(request)]
    ensures x.result.Raised? ==> x.result.failure.Rpc?
    ensures var reply := transport(Requests.Serialize(request));
      && (reply.Raised? ==> x.result == Raised(Rpc(AsJsonRcpException(reply.failure))))
      && (reply.Ok? && !ReplyTruthy(reply.value) ==> x.result == Ok(None))
      && (reply.Ok? && ReplyTruthy(reply.value) && decode(reply.value.value).Raised? ==>
            x.result == Raised(Rpc(AsJsonRcpException(decode(reply.value.value).failure))))
      && (reply.Ok? && ReplyTruthy(reply.value) && decode(reply.value.value).Ok? ==>
            var parsed := ParseResponse(decode(reply.value.value).value);
            && (parsed.Ok? ==> x.result == Ok(Some(parsed.value)))
            && (parsed.Raised? ==> x.result == Raised(Rpc(AsJsonRcpException(parsed.failure)))))
  {
    var out := Requests.Serialize(request);
    Exchange([out], Rethrow(Receive(transport(out), decode)))
  }

  /**
   * The part of sendBatch before its foreach: the reply items to visit in order, or the
   * failure of the transport or the decoder. A falsy reply and a reply that decodes to
   * something other than an array both give no items.
   */
  function BatchItems(reply: Outcome<Option<string>>, decode: Decoder): (r: Outcome<seq<Json>>)
    ensures reply.Raised? ==> r == Raised(reply.failure)
    ensures reply.Ok? && !ReplyTruthy(reply.value) ==> r == Ok([])
    ensures reply.Ok? && ReplyTruthy(reply.value) ==>
      match decode(reply.value.value)
      case Raised(f) => r == Raised(f)
      case Ok(j) => r == Ok(if IsArray(j) then Elements(j) else [])
  {
    match reply
    case Raised(f) => Raised(f)
    case Ok(text) =>
      if !ReplyTruthy(text) then Ok([])
      else
        match decode(text.value)
        case Raised(f) => Raised(f)
        case Ok(j) => if IsArray(j) then Ok(Elements(j)) else Ok([])
  }

  /** What a generator consumed to its end produced: the values it yielded, then what it threw, if anything. */
  datatype Drain = Drain(yielded: seq<Responses.Response>, error: Option<Exception>)

  /**
   * The `foreach` of sendBatch over the reply items, front to back: fromArray of each item
   * is yielded until the first item it refuses, whose normalised exception ends the run.
   */
  function Yield(xs: seq<Json>): Drain {
    if |xs| == 0 then Drain([], None)
    else
      match ParseResponse(xs[0])
      case Raised(f) => Drain([], Some(AsJsonRcpException(f)))
      case Ok(r) => var rest := Yield(xs[1..]); Drain([r] + rest.yielded, rest.error)
  }

  /**
   * What the generator promises: the k-th yielded Response is fromArray of the k-th item;
   * it throws nothing exactly when every item was yielded, and otherwise throws the
   * normalised exception of the first item not yielded.
   */
  lemma {:induction false} YieldSpec(xs: seq<Json>)
    ensures var d := Yield(xs);
      && |d.yielded| <= |xs|
      && (forall k :: 0 <= k < |d.yielded| ==> ParseResponse(xs[k]) == Ok(d.yielded[k]))
      && (d.error.None? <==> |d.yielded| == |xs|)
      && (d.error.Some? ==>
            && ParseResponse(xs[|d.yielded|]).Raised?
            && d.error.value == AsJsonRcpException(ParseResponse(xs[|d.yielded|]).failure))
  {
    if |xs| > 0 && ParseResponse(xs[0]).Ok? {
      YieldSpec(xs[1..]);
      var rest := Yield(xs[1..]);
      assert forall k :: 1 <= k < |xs| ==> xs[k] == xs[1..][k - 1];
      assert forall k :: 1 <= k <= |rest.yielded| ==> ([ParseResponse(xs[0]).value] + rest.yielded)[k] == rest.yielded[k - 1];
    }
  }

  /** One step of Yield, seen from position i of the items. */
  lemma YieldStep(xs: seq<Json>, i: nat)
    requires i < |xs|
    ensures Yield(xs[i..]) ==
      match ParseResponse(xs[i])
      case Raised(f) => Drain([], Some(AsJsonRcpException(f)))
      case Ok(r) => Drain([r] + Yield(xs[i + 1..]).yielded, Yield(xs[i + 1..]).error)
  {
    assert xs[i..][0] == xs[i];
    assert xs[i..][1..] == xs[i + 1..];
  }

  /**
   * The loop itself: yields fromArray of each item in order and stops at the first item
   * it refuses, with that item's normalised exception.
   */
  method YieldAll(xs: seq<Json>) returns (yielded: seq<Responses.Response>, error: Option<Exception>)
    ensures Drain(yielded, error) == Yield(xs)
  {
    yielded := [];
    var i := 0;
    assert xs[i..] == xs;
    while i < |xs|
      invariant 0 <= i <= |xs|
      invariant Yield(xs) == Drain(yielded + Yield(xs[i..]).yielded, Yield(xs[i..]).error)
    {
      YieldStep(xs, i);
      var parsed := ParseResponse(xs[i]);
      if parsed.Raised? {
        assert yielded + [] == yielded;
        return yielded, Some(AsJsonRcpException(parsed.failure));
      }
      assert yielded + ([parsed.value] + Yield(xs[i + 1..]).yielded) ==
        (yielded + [parsed.value]) + Yield(xs[i + 1..]).yielded;
      yielded := yielded + [parsed.value];
      i := i + 1;
    }
    assert xs[i..] == [] && yielded + [] == yielded;
    return yielded, None;
  }

  /**
   * JsonRpcClient::sendBatch, consumed to the end. The JSON list of the requests'
   * serialisations, in the given order, is passed to the transport once. The generator
   * yields one Response per reply item, in the order received, and stops at the first
   * item Response::fromArray refuses, throwing its normalised exception after the
   * earlier items were yielded. A failure before the first item yields nothing.
   */
  method SendBatch(requests: seq<Requests.Request>, transport: Transport, decode: Decoder)
    returns (sent: seq<Json>, yielded: seq<Responses.Response>, error: Option<Exception>)
    ensures sent == [JArr(EncodeAll(requests, Requests.Serialize))]
    ensures var items := BatchItems(transport(sent[0]), decode);
      && (items.Raised? ==> yielded == [] && error == Some(AsJsonRcpException(items.failure)))
      && (items.Ok? ==> Drain(yielded, error) == Yield(items.value))
  {
    var out := JArr(EncodeAll(requests, Requests.Serialize));
    sent := [out];
    var items := BatchItems(transport(out), decode);
    if items.Raised? {
      return sent, [], Some(AsJsonRcpException(items.failure));
    }
    yielded, error := YieldAll(items.value);
  }

  /**
   * Every failure reaches the caller of `send` as a JsonRcpException: one thrown by
   * Response::fromArray (or the transport, or the decoder) unchanged, any other with its
   * message and code kept and no data.
   */
  lemma SendNormalizesFailures(request: Requests.Request, transport: Transport, decode: Decoder)
    ensures var inner := Receive(transport(Requests.Serialize(request)), decode);
      var x := Send(request, transport, decode);
      && (inner.Raised? <==> x.result.Raised?)
      && (inner.Raised? && inner.failure.Rpc? ==> x.result.failure == inner.failure)
      && (inner.Raised? && inner.failure.Thrown? ==>
            x.result.failure == Rpc(JsonRcpException(inner.failure.message, inner.failure.code, JNull)))
  {
  }

  /**
   * Client and server agree: when the transport's reply decodes to a serialised Response,
   * `send` returns exactly that Response.
   */
  lemma SendReadsServerReply(request: Requests.Request, transport: Transport, decode: Decoder,
                             text: string, response: Responses.Response)
    requires transport(Requests.Serialize(request)) == Ok(Some(text)) && StringTruthy(text)
    requires decode(text) == Ok(Responses.Serialize(response))
    ensures Send(request, transport, decode).result == Ok(Some(response))
  {
    Responses.RoundTrip(response);
  }

  /** A reply that decodes to a scalar is a TypeError of fromArray, rethrown with code 0. */
  lemma SendScalarReply(request: Requests.Request, transport: Transport, decode: Decoder, text: string)
    requires transport(Requests.Serialize(request)) == Ok(Some(text)) && StringTruthy(text)
    requires decode(text).Ok? && !IsArray(decode(text).value)
    ensures Send(request, transport, decode).result ==
      Raised(Rpc(JsonRcpException(ArgumentTypeMessage, 0, JNull)))
  {
  }

  /**
   * A batch reply as the server writes it, a list of serialised Responses, is read back
   * item by item as those Responses, so sendBatch yields all of them and throws nothing.
   */
  lemma BatchReadsServerReply(reply: Outcome<Option<string>>, decode: Decoder,
                              responses: seq<Responses.Response>)
    requires reply.Ok? && ReplyTruthy(reply.value)
    requires decode(reply.value.value) == Ok(JArr(EncodeAll(responses, Responses.Serialize)))
    ensures BatchItems(reply, decode) == Ok(EncodeAll(responses, Responses.Serialize))
    ensures forall k :: 0 <= k < |responses| ==>
      ParseResponse(BatchItems(reply, decode).value[k]) == Ok(responses[k])
  {
    ListReplyItems(reply, decode, EncodeAll(responses, Responses.Serialize));
    SerializedListParses(responses);
  }

  /** A reply that decodes to a JSON list has exactly that list's items. */
  lemma ListReplyItems(reply: Outcome<Option<string>>, decode: Decoder, js: seq<Json>)
    requires reply.Ok? && ReplyTruthy(reply.value)
    requires decode(reply.value.value) == Ok(JArr(js))
    ensures BatchItems(reply, decode) == Ok(js)
  {
  }

  /** fromArray reads each item of a serialised list of Responses back. */
  lemma SerializedListParses(responses: seq<Responses.Response>)
    ensures forall k :: 0 <= k < |responses| ==>
      ParseResponse(EncodeAll(responses, Responses.Serialize)[k]) == Ok(responses[k])
  {
    forall k | 0 <= k < |responses|
      ensures ParseResponse(EncodeAll(responses, Responses.Serialize)[k]) == Ok(responses[k])
    {
      ParsesSerialized(responses[k]);
    }
  }

  /** fromArray reads a serialised Response back. */
  lemma ParsesSerialized(r: Responses.Response)
    ensures ParseResponse(Responses.Serialize(r)) == Ok(r)
  {
    Responses.RoundTrip(r);
  }

  /** In the outbound batch a notification carries no id and a call with a truthy id carries it. */
  lemma BatchOutboundIds(requests: seq<Requests.Request>, k: int)
    requires 0 <= k < |requests|
    ensures EncodeAll(requests, Requests.Serialize)[k] == Requests.Serialize(requests[k])
    ensures requests[k].id.None? ==> Get(EncodeAll(requests, Requests.Serialize)[k], "id").None?
    ensures IdTruthy(requests[k].id) ==>
      Get(EncodeAll(requests, Requests.Serialize)[k], "id") == Some(IdJson(requests[k].id))
  {
    Requests.SerializeShape(requests[k]);
  }
}
