/** `RpcEndpoint`: construction with the built-in introspection methods,
    dispatch of one request (validation, before hooks, lookup, handler,
    after hooks, error mapping), batches, and the entry point
    `handleRequest`. */
module Endpoint {
  import opened Common
  import opened Decimal
  import opened JsonValues
  import opened Errors
  import opened Messages
  import opened Middleware
  import opened Options
  import opened Registry

  /** An endpoint: its method table, its options, the introspection prefix
      read from them at construction, the middleware manager (`None` when
      middleware is disabled) and the context passed to every handler. */
  datatype Endpoint<!C> = Endpoint(
    registry: Registry<C>,
    options: RpcOptions,
    prefix: string,
    middleware: Option<Manager<C>>,
    context: C)

  // ---- construction ----

  /** The built-ins in the order the constructor registers them. */
  const Builtins: seq<Introspection> := [ListMethods, Describe, DescribeAll, Version, Capabilities]

  /** The name of a built-in, after the prefix and the dot. */
  function BuiltinSuffix(kind: Introspection): string {
    match kind
    case ListMethods => "listMethods"
    case Describe => "describe"
    case DescribeAll => "describeAll"
    case Version => "version"
    case Capabilities => "capabilities"
  }

  function BuiltinName(prefix: string, kind: Introspection): string {
    prefix + "." + BuiltinSuffix(kind)
  }

  /** The configuration each built-in is registered with: a description,
      its schema exposed, no schema. */
  function BuiltinConfig(kind: Introspection): MethodConfig {
    var text := match kind
      case ListMethods => "List all available RPC methods"
      case Describe => "Get schema and description of a specific method"
      case DescribeAll => "List all methods with public schemas"
      case Version => "Get RPC toolkit version information"
      case Capabilities => "Get server capabilities and configuration";
    MethodConfig(JNull, true, Some(text))
  }

  /** A built-in name is never blank and always reserved. */
  lemma BuiltinNameIsReserved(prefix: string, kind: Introspection)
    ensures !IsBlank(BuiltinName(prefix, kind)) && IsReserved(BuiltinName(prefix, kind), prefix)
  {
    var n := BuiltinName(prefix, kind);
    assert n[|prefix|] == '.';
    BlankIffAllTrimmable(n);
    assert n[..|prefix| + 1] == prefix + ".";
  }

  /** The five built-in names are distinct. */
  lemma BuiltinNamesDistinct(prefix: string, a: Introspection, b: Introspection)
    requires a != b
    ensures BuiltinName(prefix, a) != BuiltinName(prefix, b)
  {
    var p := prefix + ".";
    var sa, sb := BuiltinSuffix(a), BuiltinSuffix(b);
    assert (p + sa)[|p|..] == sa && (p + sb)[|p|..] == sb;
  }

  /** `registerIntrospectionMethods()`: registers the given built-ins in
      order, with the internal flag set so the reserved names are allowed. */
  function RegisterBuiltins<C>(reg: Registry<C>, prefix: string, kinds: seq<Introspection>): Result<Registry<C>>
    decreases |kinds|
  {
    if |kinds| == 0 then Ok(reg)
    else
      var next :- AddMethod(reg, prefix, Some(BuiltinName(prefix, kinds[0])), Builtin(kinds[0]),
                            Some(BuiltinConfig(kinds[0])), true);
      RegisterBuiltins(next, prefix, kinds[1..])
  }

  /** The entry a built-in is registered as. */
  function BuiltinEntry<C>(prefix: string, kind: Introspection): MethodEntry<C> {
    MethodEntry(BuiltinName(prefix, kind), Builtin(kind), BuiltinConfig(kind))
  }

  function BuiltinNames(prefix: string, kinds: seq<Introspection>): (names: seq<string>)
    ensures |names| == |kinds|
    ensures forall i :: 0 <= i < |kinds| ==> names[i] == BuiltinName(prefix, kinds[i])
    decreases |kinds|
  {
    if |kinds| == 0 then [] else [BuiltinName(prefix, kinds[0])] + BuiltinNames(prefix, kinds[1..])
  }

  /** The table holds every built-in of `kinds` under its name. */
  ghost predicate HoldsBuiltins<C>(reg: Registry<C>, prefix: string, kinds: seq<Introspection>) {
    forall i :: 0 <= i < |kinds| ==>
      BuiltinName(prefix, kinds[i]) in reg.entries && reg.entries[BuiltinName(prefix, kinds[i])] == BuiltinEntry(prefix, kinds[i])
  }

  /** `big` keeps every entry of `small`. */
  ghost predicate Keeps<C>(big: Registry<C>, small: Registry<C>) {
    forall k :: k in small.entries ==> k in big.entries && big.entries[k] == small.entries[k]
  }

  /** Registering one built-in whose name is free. */
  lemma RegisterOneBuiltin<C>(reg: Registry<C>, prefix: string, kind: Introspection)
    requires Valid(reg) && BuiltinName(prefix, kind) !in reg.entries
    ensures var r := AddMethod(reg, prefix, Some(BuiltinName(prefix, kind)), Builtin(kind), Some(BuiltinConfig(kind)), true);
            && r.Ok? && Valid(r.value) && Keeps(r.value, reg)
            && r.value.order == reg.order + [BuiltinName(prefix, kind)]
            && HoldsBuiltins(r.value, prefix, [kind])
  {
    BuiltinNameIsReserved(prefix, kind);
  }

  /** Registering distinct built-ins whose names are still free succeeds,
      appends their names in order, adds their entries and keeps the
      others. */
  lemma {:induction false} RegisterBuiltinsSucceeds<C>(reg: Registry<C>, prefix: string, kinds: seq<Introspection>)
    requires Valid(reg)
    requires forall i, j :: 0 <= i < j < |kinds| ==> kinds[i] != kinds[j]
    requires forall i :: 0 <= i < |kinds| ==> BuiltinName(prefix, kinds[i]) !in reg.entries
    ensures RegisterBuiltins(reg, prefix, kinds).Ok?
    ensures Valid(RegisterBuiltins(reg, prefix, kinds).value)
    ensures RegisterBuiltins(reg, prefix, kinds).value.order == reg.order + BuiltinNames(prefix, kinds)
    ensures Keeps(RegisterBuiltins(reg, prefix, kinds).value, reg)
    ensures HoldsBuiltins(RegisterBuiltins(reg, prefix, kinds).value, prefix, kinds)
    decreases |kinds|
  {
    if |kinds| > 0 {
      var k0 := kinds[0];
      var n := BuiltinName(prefix, k0);
      RegisterOneBuiltin(reg, prefix, k0);
      var added := AddMethod(reg, prefix, Some(n), Builtin(k0), Some(BuiltinConfig(k0)), true);
      var next := added.value;
      var rest := kinds[1..];
      forall j | 0 <= j < |rest| ensures BuiltinName(prefix, rest[j]) !in next.entries {
        assert rest[j] == kinds[j + 1];
        BuiltinNamesDistinct(prefix, k0, kinds[j + 1]);
      }
      RegisterBuiltinsSucceeds(next, prefix, rest);
      var r := RegisterBuiltins(next, prefix, rest).value;
      assert RegisterBuiltins(reg, prefix, kinds) == RegisterBuiltins(next, prefix, rest);
      assert BuiltinNames(prefix, kinds) == [n] + BuiltinNames(prefix, rest);
      AppendAssociates(reg.order, [n], BuiltinNames(prefix, rest));
      assert HoldsBuiltins(r, prefix, kinds) by {
        forall i | 0 <= i < |kinds|
          ensures BuiltinName(prefix, kinds[i]) in r.entries
          ensures r.entries[BuiltinName(prefix, kinds[i])] == BuiltinEntry(prefix, kinds[i])
        {
          if i > 0 { assert kinds[i] == rest[i - 1]; }
        }
      }
    }
  }

  /** `new RpcEndpoint(context, options)`: `None` options mean defaults.
      With introspection enabled the five built-ins are registered under
      the configured prefix, in order; the construction never fails. */
  function NewEndpoint<C>(context: C, options: Option<RpcOptions>): (ep: Endpoint<C>)
    ensures ep.options == (if options.Some? then options.value else DefaultOptions())
    ensures ep.prefix == ep.options.introspectionPrefix && ep.context == context
    ensures ep.middleware.Some? <==> ep.options.enableMiddleware
    ensures ep.middleware.Some? ==> ep.middleware.value == EmptyManager()
    ensures Valid(ep.registry)
    ensures !ep.options.enableIntrospection ==> ep.registry.entries == map[]
    ensures ep.options.enableIntrospection ==>
              ep.registry.order == BuiltinNames(ep.prefix, Builtins) && HoldsBuiltins(ep.registry, ep.prefix, Builtins)
  {
    var opts := if options.Some? then options.value else DefaultOptions();
    var prefix := opts.introspectionPrefix;
    var mw := if opts.enableMiddleware then Some(EmptyManager()) else None;
    if !opts.enableIntrospection then
      Endpoint(EmptyRegistry(), opts, prefix, mw, context)
    else
      RegisterBuiltinsSucceeds(EmptyRegistry<C>(), prefix, Builtins);
      var reg := RegisterBuiltins(EmptyRegistry(), prefix, Builtins);
      if reg.Ok? then Endpoint(reg.value, opts, prefix, mw, context)
      else assert false; Endpoint(EmptyRegistry(), opts, prefix, mw, context)
  }

  // ---- the introspection built-ins ----

  /** The names a built-in reports: the listed names that are not
      reserved, in order. */
  function UserNames(names: seq<string>, prefix: string): (r: seq<string>)
    ensures |r| <= |names|
    ensures forall n :: n in r <==> n in names && !IsReserved(n, prefix)
    decreases |names|
  {
    if |names| == 0 then []
    else if IsReserved(names[0], prefix) then UserNames(names[1..], prefix)
    else [names[0]] + UserNames(names[1..], prefix)
  }

  /** The description object of one method; a missing description reads
      as the empty string and a missing schema as JSON null. */
  function MethodInfo<C>(e: MethodEntry<C>): Json {
    JObj(map["name" := JStr(e.name), "schema" := e.config.schema,
             "description" := JStr(if e.config.description.Some? then e.config.description.value else "")])
  }

  /** Whether `describeAll` lists an entry. */
  predicate Described<C>(e: MethodEntry<C>, prefix: string) {
    !IsReserved(e.name, prefix) && e.config.exposeSchema
  }

  /** The description objects of the listed entries that are not reserved
      and expose their schema, in order. */
  function DescribeAllInfos<C>(reg: Registry<C>, names: seq<string>, prefix: string): (r: seq<Json>)
    ensures |r| <= |names|
    decreases |names|
  {
    if |names| == 0 then []
    else
      var rest := DescribeAllInfos(reg, names[1..], prefix);
      if names[0] in reg.entries && Described(reg.entries[names[0]], prefix) then
        [MethodInfo(reg.entries[names[0]])] + rest
      else rest
  }

  /** The `__rpc.describe` handler. */
  function RunDescribe<C>(reg: Registry<C>, params: Json): Invocation {
    if !params.JObj? || "method" !in params.members then
      Threw(RpcThrown(ExceptionWithCode(InvalidParamsCode, "Method name required")))
    else
      match AsString(params.members["method"])
      case Err(m) => Threw(OtherThrown(m))
      case Ok(name) =>
        if name !in reg.entries then
          Threw(RpcThrown(ExceptionWithCode(MethodNotFoundCode, "Method not found: " + name)))
        else Returned(MethodInfo(reg.entries[name]))
  }

  /** A built-in's handler, run against the endpoint as it is when the call
      arrives. */
  function RunBuiltin<C>(ep: Endpoint<C>, kind: Introspection, params: Json): Invocation {
    match kind
    case ListMethods =>
      var names := UserNames(ep.registry.order, ep.prefix);
      Returned(JArr(seq(|names|, i requires 0 <= i < |names| => JStr(names[i]))))
    case Describe => RunDescribe(ep.registry, params)
    case DescribeAll => Returned(JArr(DescribeAllInfos(ep.registry, ep.registry.order, ep.prefix)))
    case Version => Returned(JObj(map["toolkit" := JStr("rpc-java-toolkit"), "version" := JStr("1.0.0")]))
    case Capabilities =>
      Returned(JObj(map[
        "batch" := JBool(ep.options.enableBatch),
        "introspection" := JBool(true),
        "validation" := JBool(ep.options.enableValidation),
        "middleware" := JBool(ep.options.enableMiddleware),
        "safeMode" := JBool(ep.options.safeEnabled),
        "methodCount" := JNum(|UserNames(ep.registry.order, ep.prefix)|)]))
  }

  /** The message of the `NullPointerException` a `null` handler causes. */
  const NullHandlerMessage := "NullPointerException: handler is null"

  /** Calls a method's handler with the request params and the context. */
  function Invoke<C>(ep: Endpoint<C>, handler: Handler<C>, params: Json): Invocation {
    match handler
    case UserHandler(call) => call(params, ep.context)
    case Builtin(kind) => RunBuiltin(ep, kind, params)
    case NullHandler => Threw(OtherThrown(NullHandlerMessage))
  }

  // ---- one request ----

  /** What happened during a dispatch, in order: which hooks (by position
      in their list) and which handler were called. */
  datatype Event = BeforeHook(index: nat) | HandlerCall(methodName: string) | AfterHook(index: nat)

  function BeforeEvents(n: nat): seq<Event> {
    seq(n, i requires 0 <= i < n => BeforeHook(i))
  }

  function AfterEvents(n: nat): seq<Event> {
    seq(n, i requires 0 <= i < n => AfterHook(i))
  }

  /** `validateRequest`: the version must be "2.0" and the method must not
      be blank. */
  function Validate(req: Request): Option<RpcError> {
    if req.jsonrpc != ProtocolVersion then
      Some(ExceptionWithCode(InvalidRequestCode, "Invalid JSON-RPC version. Must be '2.0'").error)
    else if IsBlank(req.methodName) then
      Some(ExceptionWithCode(InvalidRequestCode, "Method name is required").error)
    else None
  }

  /** The two catch blocks of `handleSingleRequest`: an `RpcException`
      gives its own error, anything else an internal error whose message is
      hidden when errors are sanitized. */
  function ErrorFor(options: RpcOptions, thrown: Thrown): RpcError {
    match thrown
    case RpcThrown(x) => x.error
    case OtherThrown(m) => NewPlainError(InternalErrorCode, if options.sanitizeErrors then "Internal error" else m)
  }

  /** The before chain; without a middleware manager nothing runs. */
  function RunBefore<C>(ep: Endpoint<C>, req: Request): ChainRun {
    if ep.middleware.Some? then ExecuteBefore(ep.middleware.value, req, ep.context) else ChainRun(Pass, 0)
  }

  /** The after chain; without a middleware manager nothing runs. */
  function RunAfter<C>(ep: Endpoint<C>, req: Request, result: Json): ChainRun {
    if ep.middleware.Some? then ExecuteAfter(ep.middleware.value, req, result, ep.context) else ChainRun(Pass, 0)
  }

  /** A response and the calls made while producing it. */
  datatype Dispatched = Dispatched(response: Response, trace: seq<Event>)

  /** `handleSingleRequest`: validate, run the before hooks, look the
      method up, call its handler, run the after hooks, answer with the
      result; the first failure becomes an error response. The response
      always carries the request's id. */
  function HandleSingle<C>(ep: Endpoint<C>, req: Request): (d: Dispatched)
    ensures d.response.id == req.id && d.response.jsonrpc == ProtocolVersion
    ensures WellFormed(d.response)
  {
    match Validate(req)
    case Some(e) => Dispatched(ErrorResponse(e, req.id), [])
    case None =>
      var before := RunBefore(ep, req);
      var t1 := BeforeEvents(before.invoked);
      if before.status.Fail? then
        Dispatched(ErrorResponse(ErrorFor(ep.options, before.status.thrown), req.id), t1)
      else if req.methodName !in ep.registry.entries then
        Dispatched(ErrorResponse(ExceptionWithCode(MethodNotFoundCode, "Method not found: " + req.methodName).error, req.id), t1)
      else
        var t2 := t1 + [HandlerCall(req.methodName)];
        match Invoke(ep, ep.registry.entries[req.methodName].handler, req.params)
        case Threw(x) => Dispatched(ErrorResponse(ErrorFor(ep.options, x), req.id), t2)
        case Returned(v) =>
          var after := RunAfter(ep, req, v);
          var t3 := t2 + AfterEvents(after.invoked);
          if after.status.Fail? then Dispatched(ErrorResponse(ErrorFor(ep.options, after.status.thrown), req.id), t3)
          else Dispatched(SuccessResponse(v, req.id), t3)
  }

  // ---- batches and the entry point ----

  /** One element of the incoming JSON: a request Gson could bind, an
      element it could not bind (a syntax error), or the literal `null`,
      which binds to a `null` request. */
  datatype Elem = Decoded(request: Request) | Undecodable | NullLiteral

  /** The parsed input of `handleRequest`. */
  datatype Input = Malformed | Array(elems: seq<Elem>) | Single(elem: Elem)

  /** What `handleRequest` returns: the empty string, one response, or a
      JSON array of responses. */
  datatype Output = Empty | One(response: Response) | Many(responses: seq<Response>)

  datatype Handled = Handled(output: Output, trace: seq<Event>)

  /** The responses collected from part of a batch and the calls made. */
  datatype Batch = Batch(responses: seq<Response>, trace: seq<Event>)

  /** The entry of a batch element that cannot be dispatched: decoding
      failed, or the `null` request made dispatch itself throw. */
  function InvalidInBatch(): Response {
    ErrorResponse(ExceptionWithCode(InvalidRequestCode, "Invalid request in batch").error, JNull)
  }

  /** One element of `handleBatchRequest`'s loop. */
  function BatchEntry<C>(ep: Endpoint<C>, e: Elem): Batch {
    match e
    case Decoded(req) =>
      var d := HandleSingle(ep, req);
      Batch(if IsNotification(req) then [] else [d.response], d.trace)
    case _ => Batch([InvalidInBatch()], [])
  }

  /** Elements that contribute a response: all but decoded notifications. */
  predicate Answered(e: Elem) {
    !(e.Decoded? && IsNotification(e.request))
  }

  function CountAnswered(elems: seq<Elem>): (n: nat)
    ensures n <= |elems|
    decreases |elems|
  {
    if |elems| == 0 then 0 else (if Answered(elems[0]) then 1 else 0) + CountAnswered(elems[1..])
  }

  /** `handleBatchRequest`: the elements' entries, in order. */
  function BatchResponses<C>(ep: Endpoint<C>, elems: seq<Elem>): (b: Batch)
    ensures |b.responses| == CountAnswered(elems)
    ensures forall i :: 0 <= i < |b.responses| ==> WellFormed(b.responses[i])
    decreases |elems|
  {
    if |elems| == 0 then Batch([], [])
    else
      var head := BatchEntry(ep, elems[0]);
      var rest := BatchResponses(ep, elems[1..]);
      Batch(head.responses + rest.responses, head.trace + rest.trace)
  }

  /** A whole batch refused with one invalid-request error and a null id. */
  function Rejected(message: string): Handled {
    Handled(One(ErrorResponse(ExceptionWithCode(InvalidRequestCode, message).error, JNull)), [])
  }

  /** `handleRequest`. */
  function HandleRequest<C>(ep: Endpoint<C>, input: Input): (h: Handled)
    ensures h.output.One? && h.output.response.id != JNull ==>
              input.Single? && input.elem.Decoded? && h.output.response.id == input.elem.request.id
    ensures input.Array? ==> !h.output.Empty?
  {
    match input
    case Malformed => Handled(One(ErrorResponse(ExceptionWithCause(ParseErrorCode, "Invalid JSON", "JsonSyntaxException").error, JNull)), [])
    case Single(Undecodable) => Handled(One(ErrorResponse(ExceptionWithCause(ParseErrorCode, "Invalid JSON", "JsonSyntaxException").error, JNull)), [])
    case Single(NullLiteral) => Handled(One(ErrorResponse(ExceptionWithCause(InternalErrorCode, "Internal error", "NullPointerException").error, JNull)), [])
    case Single(Decoded(req)) =>
      var d := HandleSingle(ep, req);
      Handled(if IsNotification(req) then Empty else One(d.response), d.trace)
    case Array(elems) =>
      if !ep.options.enableBatch then Rejected("Batch requests are not enabled")
      else if |elems| == 0 then Rejected("Invalid batch request")
      else if ExceedsBatchLimit(ep.options, |elems|) then
        Rejected("Batch size exceeds maximum of " + IntToString(ep.options.maxBatchSize))
      else
        var b := BatchResponses(ep, elems);
        Handled(Many(b.responses), b.trace)
  }
}
