/** The request and response envelopes of sections 4 and 5 of the JSON-RPC
    2.0 specification (`RpcRequest`, `RpcResponse`). */
module Messages {
  import opened Common
  import opened JsonValues
  import opened Errors

  const ProtocolVersion := "2.0"

  /** A request. An `id` of `JNull` is Java `null`: the request is a
      notification (section 4.1). A request that Gson builds from JSON text
      bypasses the constructor, so any method text (a missing one reads as
      "") can arrive; `jsonrpc` is kept as a field so that the endpoint's
      version check is part of the model. */
  datatype Request = Request(jsonrpc: string, methodName: string, params: Json, id: Json)

  /** `isNotification()` */
  predicate IsNotification(r: Request) {
    r.id == JNull
  }

  /** `new RpcRequest(method, params, id)`: a `null` or empty method throws
      IllegalArgumentException (a method of spaces is accepted); `null`
      params become JSON null; method and id are kept as given. */
  function NewRequest(methodName: Option<string>, params: Option<Json>, id: Json): (r: Result<Request>)
    ensures r.Ok? <==> methodName.Some? && methodName.value != ""
    ensures r.Ok? ==> r.value.jsonrpc == ProtocolVersion
    ensures r.Ok? ==> r.value.methodName == methodName.value && r.value.id == id
    ensures r.Ok? ==> r.value.params == (if params.Some? then params.value else JNull)
  {
    if methodName.None? || methodName.value == "" then
      Err("IllegalArgumentException: Method name cannot be null or empty")
    else
      Ok(Request(ProtocolVersion, methodName.value, if params.Some? then params.value else JNull, id))
  }

  /** `new RpcRequest(method, params)`: the id is the clock reading in
      milliseconds, supplied here as a parameter. */
  function NewTimestampedRequest(methodName: Option<string>, params: Option<Json>, nowMillis: int): Result<Request> {
    NewRequest(methodName, params, JNum(nowMillis))
  }

  /** `RpcRequest.notification(method, params)` */
  function Notification(methodName: Option<string>, params: Option<Json>): Result<Request> {
    NewRequest(methodName, params, JNull)
  }

  /** Requests built by `notification` are notifications, those with a
      clock id are not, and `isNotification` holds exactly for a null id. */
  lemma NotificationHasNullId(methodName: string, params: Option<Json>, nowMillis: int, id: Json)
    requires methodName != ""
    ensures Notification(Some(methodName), params).Ok?
    ensures IsNotification(Notification(Some(methodName), params).value)
    ensures NewTimestampedRequest(Some(methodName), params, nowMillis).Ok?
    ensures !IsNotification(NewTimestampedRequest(Some(methodName), params, nowMillis).value)
    ensures IsNotification(NewRequest(Some(methodName), params, id).value) <==> id == JNull
  {
  }

  /** A response. `result` is `JNull` when the Java field is `null`. */
  datatype Response = Response(jsonrpc: string, result: Json, error: Option<RpcError>, id: Json)

  /** `new RpcResponse(result, id)` */
  function SuccessResponse(result: Json, id: Json): Response {
    Response(ProtocolVersion, result, None, id)
  }

  /** `new RpcResponse(error, id)` */
  function ErrorResponse(error: RpcError, id: Json): Response {
    Response(ProtocolVersion, JNull, Some(error), id)
  }

  /** `isError()` */
  predicate IsError(r: Response) {
    r.error.Some?
  }

  /** `isSuccess()` */
  predicate IsSuccess(r: Response) {
    r.error.None?
  }

  /** Section 5: version "2.0", and never both a result and an error. */
  predicate WellFormed(r: Response) {
    r.jsonrpc == ProtocolVersion && (r.error.Some? ==> r.result == JNull)
  }

  /** Both constructors keep the id, produce well-formed responses, and are
      told apart by `isError`/`isSuccess`, which are complementary; the
      success constructor keeps the result and the error one the error. */
  lemma ResponseConstructors(result: Json, error: RpcError, id: Json, r: Response)
    ensures var s := SuccessResponse(result, id);
            WellFormed(s) && IsSuccess(s) && !IsError(s) && s.result == result && s.id == id
    ensures var e := ErrorResponse(error, id);
            WellFormed(e) && IsError(e) && !IsSuccess(e) && e.error == Some(error) && e.id == id
    ensures IsSuccess(r) == !IsError(r)
  {
  }
}
