/** The JSON-RPC 2.0 error object (`RpcError`), the checked exception that
    carries one (`RpcException`), and the two kinds of failure a handler or
    middleware hook can raise. */
module Errors {
  import opened Common
  import opened JsonValues

  // The error codes of section 5.1 of the JSON-RPC 2.0 specification.
  const ParseErrorCode: Int32 := -32700
  const InvalidRequestCode: Int32 := -32600
  const MethodNotFoundCode: Int32 := -32601
  const InvalidParamsCode: Int32 := -32602
  const InternalErrorCode: Int32 := -32603
  const ServerErrorCode: Int32 := -32000

  /** Section 5.1 reserves -32768 to -32000 for pre-defined errors, and
      -32099 to -32000 for implementation-defined server errors. */
  predicate InReservedRange(code: int) {
    -32768 <= code <= -32000
  }

  predicate InServerErrorRange(code: int) {
    -32099 <= code <= -32000
  }

  /** The toolkit's six codes are distinct, all lie in the reserved range,
      and only the server code lies in the server-error sub-range. */
  lemma StandardCodes()
    ensures var codes := [ParseErrorCode, InvalidRequestCode, MethodNotFoundCode,
                          InvalidParamsCode, InternalErrorCode, ServerErrorCode];
            && (forall i, j :: 0 <= i < j < |codes| ==> codes[i] != codes[j])
            && (forall i :: 0 <= i < |codes| ==> InReservedRange(codes[i]))
            && (forall i :: 0 <= i < |codes| ==> (InServerErrorRange(codes[i]) <==> i == 5))
  {
  }

  datatype RpcError = RpcError(code: Int32, message: string, data: Json)

  /** `new RpcError(code, message, data)`: a `null` data argument is stored
      as JSON null, so the error object always has a data member. */
  function NewError(code: Int32, message: string, data: Option<Json>): (e: RpcError)
    ensures e.code == code && e.message == message
    ensures data.None? ==> e.data == JNull
    ensures data.Some? ==> e.data == data.value
  {
    RpcError(code, message, if data.Some? then data.value else JNull)
  }

  /** `new RpcError(code, message)` */
  function NewPlainError(code: Int32, message: string): RpcError {
    NewError(code, message, None)
  }

  /** The two-argument constructor is the three-argument one given `null`
      data, and also the one given an explicit JSON null. */
  lemma PlainErrorHasNullData(code: Int32, message: string)
    ensures NewPlainError(code, message) == NewError(code, message, None)
    ensures NewPlainError(code, message) == NewError(code, message, Some(JNull))
    ensures NewPlainError(code, message).data == JNull
  {
  }

  // The static factories: each fixes the code and builds the message from
  // a fixed text and, where it takes one, its argument.

  function ParseError(): RpcError {
    NewPlainError(ParseErrorCode, "Parse error")
  }

  function InvalidRequest(): RpcError {
    NewPlainError(InvalidRequestCode, "Invalid Request")
  }

  function MethodNotFound(methodName: string): RpcError {
    NewPlainError(MethodNotFoundCode, "Method not found: " + methodName)
  }

  function InvalidParams(message: string): RpcError {
    NewPlainError(InvalidParamsCode, "Invalid params: " + message)
  }

  function InternalError(message: string): RpcError {
    NewPlainError(InternalErrorCode, "Internal error: " + message)
  }

  function ServerError(message: string): RpcError {
    NewPlainError(ServerErrorCode, "Server error: " + message)
  }

  /** Every factory result has null data and a message that starts with the
      factory's fixed text, from which the argument can be read back. */
  lemma FactoriesKeepTheirArgument(arg: string)
    ensures MethodNotFound(arg).code == MethodNotFoundCode
    ensures InvalidParams(arg).code == InvalidParamsCode
    ensures InternalError(arg).code == InternalErrorCode
    ensures ServerError(arg).code == ServerErrorCode
    ensures MethodNotFound(arg).message[|"Method not found: "|..] == arg
    ensures InvalidParams(arg).message[|"Invalid params: "|..] == arg
    ensures InternalError(arg).message[|"Internal error: "|..] == arg
    ensures ServerError(arg).message[|"Server error: "|..] == arg
    ensures ParseError().code == ParseErrorCode && InvalidRequest().code == InvalidRequestCode
    ensures var all := [ParseError(), InvalidRequest(), MethodNotFound(arg), InvalidParams(arg),
                        InternalError(arg), ServerError(arg)];
            forall i :: 0 <= i < |all| ==> all[i].data == JNull
  {
  }

  /** `RpcException`: the error it carries, the `Throwable` message, and
      the message of the cause when it was given one. */
  datatype RpcException = RpcException(error: RpcError, message: string, cause: Option<string>)

  /** `new RpcException(error)`: the exception message is the error's. */
  function ExceptionFromError(error: RpcError): (x: RpcException)
    ensures x.error == error && x.message == error.message && x.cause.None?
  {
    RpcException(error, error.message, None)
  }

  /** `new RpcException(code, message)` */
  function ExceptionWithCode(code: Int32, message: string): RpcException {
    ExceptionFromError(NewPlainError(code, message))
  }

  /** `new RpcException(code, message, cause)` */
  function ExceptionWithCause(code: Int32, message: string, cause: string): RpcException {
    RpcException(NewPlainError(code, message), message, Some(cause))
  }

  /** `getErrorCode()` */
  function ErrorCode(x: RpcException): Int32 {
    x.error.code
  }

  /** The three constructors agree: the code-and-message forms carry an
      error with exactly that code and message and null data, with or
      without a cause, and the exception message is the error message. */
  lemma ExceptionConstructorsAgree(code: Int32, message: string, cause: string)
    ensures ExceptionWithCode(code, message).error == RpcError(code, message, JNull)
    ensures ExceptionWithCause(code, message, cause).error == ExceptionWithCode(code, message).error
    ensures ExceptionWithCause(code, message, cause).message == ExceptionWithCode(code, message).message
    ensures ErrorCode(ExceptionWithCode(code, message)) == code
    ensures ErrorCode(ExceptionWithCause(code, message, cause)) == code
  {
  }

  /** What a handler or a middleware hook can throw: an `RpcException`, or
      any other exception, known by its message. */
  datatype Thrown = RpcThrown(exception: RpcException) | OtherThrown(message: string)
}
