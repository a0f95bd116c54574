/**
 * The error taxonomy: JsonRcpException, its five subclasses with the codes that
 * section 5.1 of the JSON-RPC 2.0 Specification reserves, and the other Throwables
 * the library catches.
 */
module Exceptions {
  import opened JsonModel

  /**
   * A JsonRcpException (or one of its subclasses, which differ only in the code and
   * default message they pass up): a RuntimeException's message and code, plus an
   * optional array `data` that defaults to null.
   */
  datatype Exception = JsonRcpException(message: string, code: int, data: ArrayOrNull := JNull)

  /** Anything PHP throws: a JsonRcpException, or any other Throwable with its code and message. */
  datatype Failure =
    | Rpc(exception: Exception)
    | Thrown(code: int, message: string)

  /** The result of something that may throw. */
  datatype Outcome<+T> = Ok(value: T) | Raised(failure: Failure)

  /** Throwable::getCode(). */
  function CodeOf(f: Failure): int {
    match f
    case Rpc(e) => e.code
    case Thrown(c, _) => c
  }

  /** Throwable::getMessage(). */
  function MessageOf(f: Failure): string {
    match f
    case Rpc(e) => e.message
    case Thrown(_, m) => m
  }

  /**
   * A TypeError raised by the PHP engine when an argument has the wrong type. Its code
   * is 0; the message stands for the engine's text, which also names the given type.
   */
  function TypeError(message: string): (f: Failure)
    ensures f.Thrown? && CodeOf(f) == 0 && MessageOf(f) == message
  {
    Thrown(0, message)
  }

  /**
   * The library's own normalisation of a caught failure: a JsonRcpException is kept as
   * it is; any other Throwable becomes `new JsonRcpException($e->getMessage(), $e->getCode())`,
   * whose data is null.
   */
  function AsJsonRcpException(f: Failure): (e: Exception)
    ensures e.message == MessageOf(f) && e.code == CodeOf(f)
    ensures f.Rpc? ==> e == f.exception
    ensures f.Thrown? ==> e.data == JNull
  {
    match f
    case Rpc(e) => e
    case Thrown(c, m) => JsonRcpException(m, c)
  }

  /** The pre-defined errors of section 5.1 of the JSON-RPC 2.0 Specification. */
  datatype ReservedKind = ParseError | InvalidRequest | MethodNotFound | InvalidParams | InternalError

  /** The code the specification assigns to each pre-defined error. */
  function ReservedCode(k: ReservedKind): int {
    match k
    case ParseError => -32700
    case InvalidRequest => -32600
    case MethodNotFound => -32601
    case InvalidParams => -32602
    case InternalError => -32603
  }

  /** Which pre-defined error a code denotes, if any. */
  function KindOf(code: int): Option<ReservedKind> {
    if code == -32700 then Some(ParseError)
    else if code == -32600 then Some(InvalidRequest)
    else if code == -32601 then Some(MethodNotFound)
    else if code == -32602 then Some(InvalidParams)
    else if code == -32603 then Some(InternalError)
    else None
  }

  /** The codes identify their kinds, and they lie in the range the specification reserves. */
  lemma ReservedCodesIdentifyKinds(k: ReservedKind, code: int)
    ensures KindOf(ReservedCode(k)) == Some(k)
    ensures -32768 <= ReservedCode(k) <= -32000
    ensures KindOf(code).Some? ==> ReservedCode(KindOf(code).value) == code
  {
  }

  /** InvalidJsonException: code -32700, default message "Invalid json received by the server". */
  function InvalidJsonException(message: string := "Invalid json received by the server",
                                data: ArrayOrNull := JNull): (e: Exception)
    ensures KindOf(e.code) == Some(ParseError)
    ensures e.message == message && e.data == data
  {
    JsonRcpException(message, -32700, data)
  }

  /** InvalidRequestException: code -32600, default message "Invalid request object". */
  function InvalidRequestException(message: string := "Invalid request object",
                                   data: ArrayOrNull := JNull): (e: Exception)
    ensures KindOf(e.code) == Some(InvalidRequest)
    ensures e.message == message && e.data == data
  {
    JsonRcpException(message, -32600, data)
  }

  /** InvalidMethodException: code -32601, default message "The requested method does not exist". */
  function InvalidMethodException(message: string := "The requested method does not exist",
                                  data: ArrayOrNull := JNull): (e: Exception)
    ensures KindOf(e.code) == Some(MethodNotFound)
    ensures e.message == message && e.data == data
  {
    JsonRcpException(message, -32601, data)
  }

  /** InvalidParamsException: code -32602, default message "Invalid method parameter(s)". */
  function InvalidParamsException(message: string := "Invalid method parameter(s)",
                                  data: ArrayOrNull := JNull): (e: Exception)
    ensures KindOf(e.code) == Some(InvalidParams)
    ensures e.message == message && e.data == data
  {
    JsonRcpException(message, -32602, data)
  }

  /** InternalErrorException: code -32603, default message "An internal error occurred". */
  function InternalErrorException(message: string := "An internal error occurred",
                                  data: ArrayOrNull := JNull): (e: Exception)
    ensures KindOf(e.code) == Some(InternalError)
    ensures e.message == message && e.data == data
  {
    JsonRcpException(message, -32603, data)
  }

  /** Without arguments, each subclass has its default message and null data. */
  lemma DefaultInvalidJson()
    ensures InvalidJsonException() == JsonRcpException("Invalid json received by the server", -32700, JNull)
  {
  }

  lemma DefaultInvalidRequest()
    ensures InvalidRequestException() == JsonRcpException("Invalid request object", -32600, JNull)
  {
  }

  lemma DefaultInvalidMethod()
    ensures InvalidMethodException() == JsonRcpException("The requested method does not exist", -32601, JNull)
  {
  }

  lemma DefaultInvalidParams()
    ensures InvalidParamsException() == JsonRcpException("Invalid method parameter(s)", -32602, JNull)
  {
  }

  lemma DefaultInternalError()
    ensures InternalErrorException() == JsonRcpException("An internal error occurred", -32603, JNull)
  {
  }

  /** The base class keeps any code and message, and its data defaults to null. */
  lemma BaseExceptionKeepsArguments(message: string, code: int, data: ArrayOrNull)
    ensures JsonRcpException(message, code).data == JNull
    ensures var e := JsonRcpException(message, code, data);
      e.message == message && e.code == code && e.data == data
  {
  }
}
