# JSON-RPC 2.0 for PHP, modelled in Dafny

This project models the core of Ellinaut/PHP-JSON-RPC, a JSON-RPC 2.0 library, and proves
properties of the model. The core has four parts.

- **Message model** (`request.dfy`, `response.dfy`).
  - `Request` with its `Notification` and `ProcedureCall` variants, plus `Response` and `Error`.
  - For each: `fromArray` validation from a decoded array, and `jsonSerialize`.
- **Error taxonomy** (`exceptions.dfy`).
  - `JsonRcpException` and its five subclasses. Each subclass has the code reserved by section 5.1 of the JSON-RPC 2.0 Specification.
  - The normalisation that turns any other Throwable into a `JsonRcpException`.
- **Server dispatch** (`server.dfy`).
  - `JsonRpcServer::handle`: decode, shape check, batch detection, and the batch loop.
  - `executeProcedure`: validation, registry lookup, execution, and suppression of the Response for a falsy id.
  - `createErrorResponse`.
- **Client pipeline** (`client.dfy`): `JsonRpcClient::send`, and `sendBatch` consumed to its end.

`json.dfy` holds the decoded JSON values that PHP's `json_decode($text, true)` produces.

- JSON lists and objects are both PHP arrays. An object is an ordered list of members, because PHP arrays keep insertion order.
- The library relies on that order in two places: `foreach` over a decoded object, and the key order `jsonSerialize` writes.
- `json.dfy` also holds PHP truthiness (`if ($x)`), `isset($data[0])` and `$x ?? null`.

Failures are values:

- `Outcome<T>` is `Ok(value)` or `Raised(failure)`.
- A `Failure` is either a `JsonRcpException` or another Throwable with its code and message.
- An engine TypeError is a Throwable with code 0.

The dispatch code has a few parameters:

- The procedure container is a `Registry`, made of `has`, "is a `RemoteProcedure`", and what `execute` returns or throws for given arguments.
- `json_decode` is an oracle parameter.
- The transport is a function from the outbound JSON value to a reply.

The two loops of the source are methods proved against recursive specification functions:

- the batch loop of `handle` (`Server.RunBatch` against `Server.Aggregate`);
- the generator loop of `sendBatch` (`Client.YieldAll` against `Client.Yield`), which `Client.SendBatch` runs on the reply items.

Where the code departs from what the library's own tests or the JSON-RPC 2.0 Specification lead one to expect, the model follows the code:

- The tests at tests/JsonRpcServerTest.php:393-606 expect a `validate` step before `execute`, which the mock procedure at tests/RemoteProcedureMock.php:25-35 records. The code has no such step. `execute` is the only method of `RemoteProcedure` (src/Server/RemoteProcedure.php:15), and it is the only call made at src/Server/JsonRpcServer.php:78.
- Section 4 of the JSON-RPC 2.0 Specification allows any number or string as an id, 0 and "" included. The code tests ids for truthiness at src/Model/Value/Request.php:56 and src/Server/JsonRpcServer.php:80:
  - an id of 0, 0.0, "" or "0" is dropped from a serialised request;
  - a successful call with such an id gets no Response.

  tests/Integration/NotificationAndProcedureCallTest.php:204-229 records this as a known limitation. See `Requests.ProcedureCallSerialization` and `Server.ProcedureCallDispatch`.
- Section 5 of the JSON-RPC 2.0 Specification requires exactly one of `result` and `error` in a response. The code accepts both, and `error` wins (see `Responses.ErrorWinsWithDefaults`).
- Section 4.1 of the JSON-RPC 2.0 Specification says the server must not reply to a notification, in a batch or not. The code suppresses only the Response of a notification whose procedure returned normally. A notification that fails validation, names an unknown method or throws gets an error Response with a null id (see `Server.NotificationDispatch`).

## Model

| member | source | states |
|---|---|---|
| JsonModel.LookupFirst | src/Model/Value/Request.php:23 | `$data[$key]` for a key that exists reads the value of the (first) member with that key |
| JsonModel.LookupAbsent | src/Model/Value/Request.php:31 | `array_key_exists` is false for a key no member has |
| JsonModel.EncodeAll | src/Client/JsonRpcClient.php:57 | a list of requests (here) or of responses (src/Server/JsonRpcServer.php:59) encodes as the list of their serialisations, same length and in order |
| JsonModel.FalsyIds | src/Model/Value/Request.php:56 | exactly null, 0, 0.0, "" and "0" are falsy as an id |
| Exceptions.AsJsonRcpException | src/Server/JsonRpcServer.php:85-91 | a JsonRcpException is kept as is; any other Throwable becomes one with the same message and code and null data |
| Exceptions.ReservedCodesIdentifyKinds | src/Exception/InvalidJsonException.php:14 | the five reserved codes (-32700 here, -32600, -32601, -32602, -32603 in the sibling classes) map one-to-one to their kinds and lie in -32768..-32000 |
| Exceptions.InvalidJsonException | src/Exception/InvalidJsonException.php:10-15 | the code is the parse-error code -32700 whatever the arguments; message and data are kept |
| Exceptions.InvalidRequestException | src/Exception/InvalidRequestException.php:10-15 | the code is the invalid-request code -32600; message and data are kept |
| Exceptions.InvalidMethodException | src/Exception/InvalidMethodException.php:10-13 | the code is the method-not-found code -32601; message and data are kept |
| Exceptions.InvalidParamsException | src/Exception/InvalidParamsException.php:10-13 | the code is the invalid-params code -32602; message and data are kept |
| Exceptions.InternalErrorException | src/Exception/InternalErrorException.php:13-16 | the code is the internal-error code -32603; message and data are kept |
| Exceptions.DefaultInvalidJson | src/Exception/InvalidJsonException.php:11-12 | the default message is "Invalid json received by the server" and data defaults to null |
| Exceptions.DefaultInvalidRequest | src/Exception/InvalidRequestException.php:11-12 | the default message is "Invalid request object" and data defaults to null |
| Exceptions.DefaultInvalidMethod | src/Exception/InvalidMethodException.php:10 | the default message is "The requested method does not exist" and data defaults to null |
| Exceptions.DefaultInvalidParams | src/Exception/InvalidParamsException.php:10 | the default message is "Invalid method parameter(s)" and data defaults to null |
| Exceptions.DefaultInternalError | src/Exception/InternalErrorException.php:13 | the default message is "An internal error occurred" and data defaults to null |
| Exceptions.BaseExceptionKeepsArguments | src/Exception/JsonRcpException.php:11-14 | any message and integer code are kept; data defaults to null and a given data is kept |
| Requests.Notification | src/Model/Value/Notification.php:10-13 | the id is null; method and params are passed through |
| Requests.ProcedureCall | src/Model/Value/ProcedureCall.php:10-13 | the id is the given string, int or float and never null; method and params are passed through |
| Requests.FromArray | src/Model/Value/Request.php:21-43 | succeeds exactly when all four checks pass; on success method, params and id equal the array's values, with an absent params or id read as null; every failure is an InvalidRequest exception with null data |
| Requests.VersionCheckedFirst | src/Model/Value/Request.php:23-25 | a missing or non-"2.0" jsonrpc is refused with "Invalid JSON-RPC version", whatever else is wrong |
| Requests.MethodCheckedSecond | src/Model/Value/Request.php:27-29 | next, a missing or non-string method is refused with "Method is required and must be a string"; an empty method passes |
| Requests.ParamsCheckedThird | src/Model/Value/Request.php:31-33 | next, present params that are not an array, an explicit null included, are refused with "Params must be a structured value or omitted" |
| Requests.IdCheckedLast | src/Model/Value/Request.php:35-40 | last, a present id that is null, a boolean or an array is refused with "Id must be a string, integer, float, or omitted" |
| Requests.Serialize | src/Model/Value/Request.php:45-61 | the serialisation is an object; its members are given by SerializeShape |
| Requests.SerializeShape | src/Model/Value/Request.php:45-61 | the keys are exactly jsonrpc, method, then params when truthy and id when truthy, in that order, with jsonrpc "2.0" and the request's values |
| Requests.Normalized | src/Model/Value/Request.php:52-58 | the request a serialisation preserves: same method, params kept exactly when truthy, id kept exactly when truthy |
| Requests.RoundTrip | src/Model/Value/Request.php:21-61 | reading back a serialised request gives the request with empty params and a falsy id turned to null |
| Requests.ExactRoundTrip | src/Model/Value/Request.php:21-61 | the round trip is exact if and only if params are null or non-empty and the id is null or truthy |
| Requests.SerializeIdempotent | src/Model/Value/Request.php:21-61 | serialising the request read back from a serialisation reproduces that serialisation |
| Requests.NotificationSerialization | src/Model/Value/Notification.php:12 | a notification's serialisation has no id, has params exactly when they are non-empty, and reads back with a null id |
| Requests.ProcedureCallSerialization | src/Model/Value/ProcedureCall.php:12 | a call's serialisation carries its id exactly when it is truthy, and reads back with that id or, for a falsy id, with null |
| Responses.ErrorKeepsFields | src/Model/Value/Error.php:10-15 | code, message and data of any JSON type are stored unchanged, and serialised as exactly the members code, message, data in that order with those values |
| Responses.ErrorFrom | src/Model/Value/Response.php:45-52 | a missing or null code reads as -32500 and message as "Unknown error"; data is the value or null; a non-int code or non-string message is a TypeError |
| Responses.FromArray | src/Model/Value/Response.php:19-58 | success implies all three checks passed; the id is copied; the payload is an Error exactly when "error" is present, else the raw result; failures of the checks carry -32501, -32502 or -32503; once the checks pass, a response without "error" is accepted, and one with "error" is accepted exactly when that Error can be built, otherwise the Error constructor's failure is raised |
| Responses.VersionCheckedFirst | src/Model/Value/Response.php:21-26 | a missing or non-"2.0" jsonrpc raises -32501 with its message, whatever else is wrong |
| Responses.PayloadCheckedSecond | src/Model/Value/Response.php:28-33 | next, neither result nor error raises -32502 |
| Responses.IdCheckedThird | src/Model/Value/Response.php:35-43 | last, a missing id or one that is not a string, int, float or null raises -32503; an explicit null id is accepted |
| Responses.ErrorWithoutData | src/Model/Value/Response.php:45-52 | an error object with only an int code and a string message is accepted, with that code and message and null data |
| Responses.ErrorWinsWithDefaults | src/Model/Value/Response.php:45-57 | with "error" present, the payload is the Error even when "result" is present too, with the default code and message filled in |
| Responses.Serialize | src/Model/Value/Response.php:60-75 | the serialisation is an object; its members are given by SerializeShape |
| Responses.SerializeShape | src/Model/Value/Response.php:60-75 | the keys are exactly jsonrpc, then error or result according to the payload, then id (always, null included) |
| Responses.ErrorRoundTrip | src/Model/Value/Response.php:47-51 | reading back a serialised Error gives it back |
| Responses.RoundTrip | src/Model/Value/Response.php:19-75 | reading back a serialised response gives it back, for results (null included) and errors |
| Server.CreateErrorResponse | src/Server/JsonRpcServer.php:95-105 | an error Response with the exception's code, message and data and the given id |
| Server.CoerceId | src/Server/JsonRpcServer.php:95 | an id argument that is a string, number or null is taken as is, a boolean becomes 1 or 0, and an array is refused |
| Server.ErrorFor | src/Server/JsonRpcServer.php:85-92 | a caught failure becomes an error Response for the normalised exception; the TypeError raised for an array id is the only escape |
| Server.ExecuteProcedure | src/Server/JsonRpcServer.php:62-93 | a result Response only for a valid request with a truthy id, echoing that id; no Response only for a valid request with a falsy id; only a TypeError escapes |
| Server.Invocation | src/Server/JsonRpcServer.php:66-78 | execute is reached exactly when the item validates and its method is registered as a RemoteProcedure |
| Server.ParsedErrorId | src/Server/JsonRpcServer.php:64-67 | once an item has validated, its error Response carries the request's id |
| Server.InvalidItemIgnoresRegistry | src/Server/JsonRpcServer.php:66 | an item failing validation never reaches the registry and gets -32600 with the raw item's id (null when absent) |
| Server.UnknownMethod | src/Server/JsonRpcServer.php:69-76 | an unregistered method, or an entry that is not a RemoteProcedure, gets -32601 "Invalid method: <name>" with the request's id |
| Server.Execution | src/Server/JsonRpcServer.php:78-84 | execute receives the params (or [] when absent) and the parsed id; a result is answered for a truthy id only; a failure becomes an error Response with the request's id |
| Server.SubtractCallIsSingle | src/Server/JsonRpcServer.php:41 | the standard's subtract request has no element 0, so it is not taken for a batch |
| Server.SubtractCallParses | src/Model/Value/Request.php:21-43 | the standard's subtract request is a single call that validates with id 1 |
| Server.SubtractExample | src/Server/JsonRpcServer.php:53 | the standard's subtract call returning 19 is answered with exactly {"jsonrpc":"2.0","result":19,"id":1} |
| Server.NotificationDispatch | src/Server/JsonRpcServer.php:78-84 | a serialised notification is executed with a null id and gets no Response when it returns; any Response it gets is an error with a null id |
| Server.ProcedureCallDispatch | src/Server/JsonRpcServer.php:78-84 | a serialised call is executed with its id when truthy, and its result echoed with that id; with a falsy id it is executed with null and gets no Response |
| Server.Handle | src/Server/JsonRpcServer.php:28-60 | undecodable text gets the parse-error reply; a non-array or empty value gets the invalid-request reply; a value with element 0 is a batch answered by Aggregate; anything else is a single call |
| Server.RunBatch | src/Server/JsonRpcServer.php:41-51 | the foreach loop produces exactly the filter-map Aggregate of the items |
| Server.ParseErrorReplyContents | src/Server/JsonRpcServer.php:31-35 | the parse-error reply is exactly {"jsonrpc":"2.0","error":{"code":-32700,"message":"Invalid json received by the server","data":null},"id":null} |
| Server.InvalidRequestReplyContents | src/Server/JsonRpcServer.php:37-39 | the shape-error reply is exactly -32600 "Invalid request" with null data and null id |
| Server.AggregateAppend | src/Server/JsonRpcServer.php:41-48 | the Responses to a + b are those to a followed by those to b; a TypeError in a stops before b |
| Server.AggregateSingle | src/Server/JsonRpcServer.php:43-47 | a batch of one item is answered with that item's Response, if any |
| Server.AggregateRaises | src/Server/JsonRpcServer.php:43-44 | the batch raises exactly when some item is not an array or raises on its own |
| Server.AllSuppressed | src/Server/JsonRpcServer.php:49-51 | when no item produces a Response, the batch gets no reply, not an empty list |
| Server.MixedBatch | src/Server/JsonRpcServer.php:41-51 | two calls around a notification give two result Responses, in the calls' order, with their ids |
| Client.ParseResponse | src/Client/JsonRpcClient.php:35-37 | an array decoded reply is read by Response::fromArray; anything else is fromArray's TypeError |
| Client.Rethrow | src/Client/JsonRpcClient.php:38-46 | a success passes through; a failure is rethrown as its normalised JsonRcpException |
| Client.Send | src/Client/JsonRpcClient.php:24-47 | the request's serialisation is sent once; a transport failure, a falsy reply, a decode failure and the fromArray outcome each give the stated result; whatever is raised is a JsonRcpException |
| Client.SendNormalizesFailures | src/Client/JsonRpcClient.php:38-46 | a JsonRcpException reaches the caller unchanged; any other failure with its message and code and null data |
| Client.SendReadsServerReply | src/Client/JsonRpcClient.php:35-37 | a reply that decodes to a serialised Response is returned as exactly that Response |
| Client.SendScalarReply | src/Client/JsonRpcClient.php:35-46 | a reply that decodes to a scalar is rethrown as a JsonRcpException with code 0 |
| Client.BatchItems | src/Client/JsonRpcClient.php:56-67 | a transport or decode failure is raised; a falsy reply or a non-array decoded value gives no items; otherwise the array's values in order |
| Client.YieldSpec | src/Client/JsonRpcClient.php:68-79 | the k-th yielded Response is fromArray of the k-th item; nothing is thrown exactly when every item was yielded; otherwise the normalised exception of the first item not yielded is thrown |
| Client.YieldAll | src/Client/JsonRpcClient.php:68-70 | the foreach loop yields exactly what Yield specifies, stopping at the first refused item |
| Client.SendBatch | src/Client/JsonRpcClient.php:53-80 | the requests are sent once as a JSON list in their order; a transport or decode failure yields nothing and throws its normalised exception; otherwise what is yielded and thrown is Yield of the reply items |
| Client.BatchReadsServerReply | src/Client/JsonRpcClient.php:68-70 | a reply that decodes to a list of serialised Responses is read back item by item as exactly those Responses |
| Client.BatchOutboundIds | src/Client/JsonRpcClient.php:56-58 | in the outbound batch, a notification carries no id and a call with a truthy id carries that id |

## Left out

- JSON text. `json_encode` and `json_decode` are not modelled:
  - the server takes the decoder as an oracle parameter (`None` for a JsonException);
  - the client's decoder returns a value or a failure;
  - every encoded message is the JSON value that would be written.
- Failures of `json_encode` are not modelled. JSON_THROW_ON_ERROR would raise them for INF or NaN floats or invalid UTF-8.
- The transport is a parameter mapping the outbound message to a reply or a failure.
- The PSR container and the procedure bodies are reduced to `has`, "is a RemoteProcedure", and the outcome of `execute`.
- A `get` that throws is not represented apart from `execute`. A throwing `get` would also be caught and become an error Response.
- Objects decoded with repeated keys are not modelled faithfully. `JsonModel.Lookup` reads the first member with a key, while `json_decode` keeps the last value. For `{"jsonrpc":"1.0","jsonrpc":"2.0","method":"m"}` the model refuses the version where PHP accepts it. For objects with distinct keys, which is what JSON text written by `json_encode` yields, the two agree.
- Member keys are strings. PHP turns numeric keys into integer keys. Only `isset($data[0])` and array iteration see this difference, and `JsonModel.HasFirstElement` handles the key "0".
- Batch detection follows the code's `isset($data[0])` exactly:
  - a list whose first element is null is treated as a single request;
  - an object with a non-null member "0" is treated as a batch of its member values.
- Integers are unbounded. PHP's 64-bit ints, and the decoder turning out-of-range integers into floats, are not modelled.
- Floats are reals. Only equality and the zero test are used.
- Engine TypeError messages are abbreviated. The real messages also name the given type.
- Responses.ErrorFrom: does not model PHP's coercion of a float, bool or numeric-string `code` to int, or of a scalar `message` to string. Such values raise a TypeError in the model, where PHP would coerce some of them.
- Server.Handle: a TypeError that escapes `handle` is reported as a raised outcome, not as an uncaught PHP error. It arises from a non-array batch item or an array raw id in an error path.
- Client.SendBatch: models the generator consumed to its end (`Client.Drain`). Its laziness is not modelled: the transport is called on the first advance, and a consumer that stops early never meets a later failing item.
- A procedure returning an Error object is not modelled: `execute`'s result is any JSON value.
- PHP re-encodes an array with keys 0..n-1 as a JSON list. This quirk of `json_encode` is not modelled.
- The readonly and JsonSerializable mechanics of the PHP classes are not modelled. Values are immutable datatypes.
- No validate-before-execute step is modelled, because the code has none.
