# rpc-java-toolkit in Dafny

This project models the core of rpc-java-toolkit, a JSON-RPC 2.0 toolkit
for Java, and proves properties of the model. The parts modelled are:

- the server endpoint (`RpcEndpoint`): method registration, with its
  reserved introspection prefix; dispatch of a single request through
  validation, the before-middleware, the handler and the after-middleware;
  batch handling, with its three refusals and the per-element fallbacks;
  and the five built-in introspection methods;
- the safe endpoint (`RpcSafeEndpoint`), which forces safe mode on the
  options;
- the safe-mode serializer (`RpcSerializer`), which tags `String` values
  with `S:`, `Instant` values with `D:` and `BigInteger` values with a
  trailing `n`;
- the middleware manager, with its "before" and "after" phases;
- the message types (`RpcRequest`, `RpcResponse`, `RpcError`,
  `RpcException`), the endpoint options (`RpcOptions`) and the log-level
  enum;
- the client configuration (`RpcClientConfig`) and the configuration merge
  done by the safe client (`RpcSafeClient`).

Every Java object becomes an immutable value, and every operation becomes
a pure function:

- A mutating setter returns the updated record.
- A Java exception in the operation itself becomes the `Err` case of a
  `Result`.
- An exception thrown by user code (a handler or a middleware hook)
  becomes a `Thrown` value that the endpoint maps to an error response.
- JSON text does not appear. The endpoint's entry point takes what Gson
  would have made of the text: an input that does not parse, a single
  element, or an array of elements. Each element is a decoded request, a
  value that does not bind to a request, or the literal `null`.
- The entry point returns the response (or the array of responses, or
  nothing) together with a trace of the hooks and handlers it called.

Modules, one per file:

| file | module | Java counterpart |
|---|---|---|
| common.dfy | Common | `Option`/`Result`, 32-bit ints, `String.trim`, `startsWith`, `equalsIgnoreCase` |
| decimal.dfy | Decimal | `BigInteger.toString` and `new BigInteger(text)` |
| json.dfy | JsonValues | Gson's `JsonElement` and `getAsString` |
| errors.dfy | Errors | `RpcError`, `RpcException` |
| messages.dfy | Messages | `RpcRequest`, `RpcResponse` |
| serializer.dfy | Serializer | `RpcSerializer` and its three safe-mode adapters |
| middleware.dfy | Middleware | `IRpcMiddleware`, `MiddlewareManager` |
| log_level.dfy | LogLevels | `RpcLogLevel` |
| options.dfy | Options | `RpcOptions` |
| registry.dfy | Registry | the method map of `RpcEndpoint`, `MethodConfig` |
| endpoint.dfy | Endpoint | `RpcEndpoint` construction, dispatch, batches, introspection |
| endpoint_properties.dfy | EndpointProperties | properties of the endpoint that span several calls |
| safe_endpoint.dfy | SafeEndpoint | `RpcSafeEndpoint` |
| client_config.dfy | ClientConfig | `RpcClientConfig`, `RpcSafeClient.mergeSafeConfig` |

Three behaviours of the code are worth knowing. The model keeps all of
them as written:

- Safe mode never reaches the server's responses. `RpcEndpoint` writes
  with a plain Gson instance (RpcEndpoint.java:69-70), and the only
  `RpcSerializer` is the client's. On the server, `isSafeEnabled()` is read
  only by the `capabilities` built-in. So an `RpcSafeEndpoint` answers
  exactly like an `RpcEndpoint` whose options have safe mode on, and the
  endpoint model never calls the serializer.

- A batch made only of notifications is answered with an empty array `[]`.
  Section 6 of the JSON-RPC 2.0 specification says the server should
  return nothing in that case.
- A single request that is the JSON literal `null` reaches the endpoint's
  generic exception handler, and the answer is an internal error (-32603).
  Inside a batch, the same element gives the batch's "Invalid request in
  batch" entry instead.

## Model

| member | source | states |
|---|---|---|
| Common.BlankIffAllTrimmable | rpc-server/src/main/java/com/carpanese/rpc/server/RpcEndpoint.java:98 | a name is blank after `trim()` exactly when every character is a control character or space (code point at most U+0020) |
| Decimal.NatToStringRoundTrip | rpc-core/src/main/java/com/carpanese/rpc/core/RpcSerializer.java:127 | reading the decimal numeral of a natural number back gives that number |
| Decimal.ParseIntRoundTrip | rpc-core/src/main/java/com/carpanese/rpc/core/RpcSerializer.java:135-137 | parsing the numeral of any integer, zero and negatives included, gives that integer (`new BigInteger(n.toString()) == n`) |
| Decimal.ParseIntLeniency | rpc-core/src/main/java/com/carpanese/rpc/core/RpcSerializer.java:135-137 | the numeral parser rejects empty text, a lone sign and trailing garbage, and accepts a plus sign and leading zeros |
| JsonValues.AsString | rpc-server/src/main/java/com/carpanese/rpc/server/RpcEndpoint.java:375 | `getAsString` gives a string's own text, a number's numeral and a boolean's word, and reads through a one-element array; it throws on null and on objects with the messages "JsonNull" and "JsonObject", and on arrays of another size |
| Errors.StandardCodes | rpc-core/src/main/java/com/carpanese/rpc/core/RpcError.java:22-27 | the six codes are distinct and all lie in the reserved range -32768..-32000; only the server code lies in the server-error range -32099..-32000 |
| Errors.NewError | rpc-core/src/main/java/com/carpanese/rpc/core/RpcError.java:40-44 | code and message are kept, and null data is stored as JSON null |
| Errors.PlainErrorHasNullData | rpc-core/src/main/java/com/carpanese/rpc/core/RpcError.java:49-51 | the two-argument constructor equals the three-argument one given either null or JSON null data |
| Errors.FactoriesKeepTheirArgument | rpc-core/src/main/java/com/carpanese/rpc/core/RpcError.java:55-77 | each factory has its code and null data, and the argument can be read back from the message after the fixed text |
| Errors.ExceptionFromError | rpc-core/src/main/java/com/carpanese/rpc/core/RpcException.java:13-16 | the exception carries the error, and its message is the error's message |
| Errors.ExceptionConstructorsAgree | rpc-core/src/main/java/com/carpanese/rpc/core/RpcException.java:21-39 | the code-and-message constructors, with or without a cause, carry the same error with that code, that message and null data |
| Messages.NewRequest | rpc-core/src/main/java/com/carpanese/rpc/core/RpcRequest.java:29-36 | construction succeeds exactly when the method is non-null and non-empty; version "2.0", method and id are kept, and null params become JSON null |
| Messages.NotificationHasNullId | rpc-core/src/main/java/com/carpanese/rpc/core/RpcRequest.java:41-74 | `notification` builds notifications, timestamped requests are not notifications, and `isNotification` holds exactly for a null id |
| Messages.ResponseConstructors | rpc-core/src/main/java/com/carpanese/rpc/core/RpcResponse.java:22-68 | both constructors keep the id and give well-formed responses that `isError` and `isSuccess` tell apart; these two predicates are complementary on every response |
| Serializer.EncodeStringShape | rpc-core/src/main/java/com/carpanese/rpc/core/RpcSerializer.java:91-93 | the wire text is the `S:` tag followed by exactly the original string |
| Serializer.StringRoundTrip | rpc-core/src/main/java/com/carpanese/rpc/core/RpcSerializer.java:91-103 | decoding an encoded string gives it back, even one that itself starts with `S:` |
| Serializer.DecodeStringBackwardCompatible | rpc-core/src/main/java/com/carpanese/rpc/core/RpcSerializer.java:96-103 | untagged text decodes to itself and to the same string as its tagged form, so decoding is not injective |
| Serializer.DecodeStringStripsOnce | rpc-core/src/main/java/com/carpanese/rpc/core/RpcSerializer.java:99-101 | only the outermost tag is stripped |
| Serializer.BigIntegerRoundTrip | rpc-core/src/main/java/com/carpanese/rpc/core/RpcSerializer.java:126-138 | every integer survives encode-then-decode |
| Serializer.DecodeBigIntegerLenient | rpc-core/src/main/java/com/carpanese/rpc/core/RpcSerializer.java:131-138 | an untagged numeral decodes to its value, a bare `n` is rejected, and a doubled `n` suffix is rejected |
| Serializer.InstantRoundTrip | rpc-core/src/main/java/com/carpanese/rpc/core/RpcSerializer.java:108-121 | given a formatter/parser pair that round-trips, instants survive encode-then-decode, and untagged ISO text decodes to the same instant |
| Serializer.SafeModeSwitch | rpc-core/src/main/java/com/carpanese/rpc/core/RpcSerializer.java:28-42 | without safe mode no adapter is registered, so a `String` value is written as a plain JSON string and a `BigInteger` as a JSON number; with it, both are written as tagged strings |
| Serializer.SerializerRoundTrip | rpc-core/src/main/java/com/carpanese/rpc/core/RpcSerializer.java:33-38 | in either mode, a written string or big integer reads back to the original value |
| Middleware.Add | rpc-server/src/main/java/com/carpanese/rpc/server/middleware/MiddlewareManager.java:21-28 | `add` succeeds exactly for "before" or "after" in any letter case; it appends to that phase's list and leaves the other list unchanged |
| Middleware.AddIgnoresCase | rpc-server/src/main/java/com/carpanese/rpc/server/middleware/MiddlewareManager.java:22-27 | "BEFORE" and "After" act like their lower-case forms; other words, and "before " with a trailing space, are refused |
| Middleware.RunChain | rpc-server/src/main/java/com/carpanese/rpc/server/middleware/MiddlewareManager.java:34-47 | running a hook list stops at the first failure, which becomes the outcome; every earlier hook passed; without a failure every hook ran |
| Middleware.ExecuteBeforeFirstFailure | rpc-server/src/main/java/com/carpanese/rpc/server/middleware/MiddlewareManager.java:34-38 | `executeBefore` passes exactly when every before hook passes on the request and context; a failure is that of the first failing hook |
| Middleware.ExecuteAfterFirstFailure | rpc-server/src/main/java/com/carpanese/rpc/server/middleware/MiddlewareManager.java:43-47 | the same statement for `executeAfter`, with the result passed to every hook |
| Middleware.RunChainAppend | rpc-server/src/main/java/com/carpanese/rpc/server/middleware/MiddlewareManager.java:21-38 | a hook added last runs after all earlier ones, and only when they all passed |
| LogLevels.LevelIsDeclarationIndex | rpc-server/src/main/java/com/carpanese/rpc/server/logging/RpcLogLevel.java:7-22 | each level's number is its position in the declaration, so the numbers strictly increase |
| LogLevels.IsEnabledFollowsDeclarationOrder | rpc-server/src/main/java/com/carpanese/rpc/server/logging/RpcLogLevel.java:24-26 | a level is enabled under a minimum exactly when it is declared no later than that minimum |
| LogLevels.IsEnabledTotalOrder | rpc-server/src/main/java/com/carpanese/rpc/server/logging/RpcLogLevel.java:24-26 | `isEnabled` is reflexive, transitive, antisymmetric and total |
| LogLevels.Extremes | rpc-server/src/main/java/com/carpanese/rpc/server/logging/RpcLogLevel.java:7-26 | SILENT is enabled under every minimum, and TRACE only under TRACE |
| Options.DefaultOptions | rpc-server/src/main/java/com/carpanese/rpc/server/RpcOptions.java:9-20 | the eleven defaults, among them batch size 100, timeout 30, introspection off and prefix "__rpc" |
| Options.Set | rpc-server/src/main/java/com/carpanese/rpc/server/RpcOptions.java:31-133 | after a setter, the field's getter returns the value given, with no range check |
| Options.SetLeavesOtherFields | rpc-server/src/main/java/com/carpanese/rpc/server/RpcOptions.java:31-133 | a setter changes no other field |
| Options.GettersDetermineOptions | rpc-server/src/main/java/com/carpanese/rpc/server/RpcOptions.java:27-128 | two option records on which every getter agrees are equal |
| Options.SetCurrentValueIsIdentity | rpc-server/src/main/java/com/carpanese/rpc/server/RpcOptions.java:31-133 | setting a field to its current value changes nothing |
| Options.SetTwiceLastWins | rpc-server/src/main/java/com/carpanese/rpc/server/RpcOptions.java:31-133 | of two sets of one field, the last one wins |
| Options.SetsOfDifferentFieldsCommute | rpc-server/src/main/java/com/carpanese/rpc/server/RpcOptions.java:31-133 | setters of two different fields commute |
| Options.NonPositiveLimitIsUnlimited | rpc-server/src/main/java/com/carpanese/rpc/server/RpcEndpoint.java:205 | a batch-size limit of zero or below never refuses a batch |
| ClientConfig.DefaultConfig | rpc-client/src/main/java/com/carpanese/rpc/client/RpcClientConfig.java:12-22 | safe mode off, timeouts of 10, 30 and 30 seconds, and exactly the two JSON headers |
| ClientConfig.SetHeader | rpc-client/src/main/java/com/carpanese/rpc/client/RpcClientConfig.java:64-67 | the header is added or overwritten; every other header and every other field is kept |
| ClientConfig.SetHeaders | rpc-client/src/main/java/com/carpanese/rpc/client/RpcClientConfig.java:69-72 | afterwards the headers are exactly the given map, and safe mode and the three timeouts are unchanged |
| ClientConfig.SetHeadersDropsDefaults | rpc-client/src/main/java/com/carpanese/rpc/client/RpcClientConfig.java:64-72 | for every configuration, a header absent from the new map is gone after `setHeaders`, and only the last replacement counts, whatever was set before; `setHeader` instead keeps every header already there, so both defaults survive it |
| ClientConfig.MergeSafeConfig | rpc-client/src/main/java/com/carpanese/rpc/client/RpcSafeClient.java:58-72 | the merged configuration has safe mode on and is the defaults without a user configuration, or the user's configuration with safe mode on; the caller's object is unchanged |
| ClientConfig.MergeSafeConfigOnlyTurnsOnSafeMode | rpc-client/src/main/java/com/carpanese/rpc/client/RpcSafeClient.java:63-71 | timeouts and headers are copied; a configuration already in safe mode merges to itself, and merging is idempotent |
| Registry.AddMethod | rpc-server/src/main/java/com/carpanese/rpc/server/RpcEndpoint.java:97-117 | registration succeeds exactly when the name is non-blank, is not reserved (unless registration is internal) and is new; it then adds that one entry with a null config replaced by a fresh one, keeps every other entry, and keeps the table valid |
| Registry.RemoveMethod | rpc-server/src/main/java/com/carpanese/rpc/server/RpcEndpoint.java:132-133 | removal deletes exactly that name, keeps every other entry, and keeps the table valid |
| Registry.GetMethod | rpc-server/src/main/java/com/carpanese/rpc/server/RpcEndpoint.java:157-158 | the entry is returned exactly when the name is registered, and it is stored under its own name |
| Registry.ListMethodNames | rpc-server/src/main/java/com/carpanese/rpc/server/RpcEndpoint.java:147-148 | the listed names are exactly the registered ones, each listed once |
| Registry.RemoveAbsentIsNoOp | rpc-server/src/main/java/com/carpanese/rpc/server/RpcEndpoint.java:132-133 | removing an unregistered name changes nothing |
| Registry.RemoveUndoesAdd | rpc-server/src/main/java/com/carpanese/rpc/server/RpcEndpoint.java:109-133 | removing a method right after adding it restores the table |
| Registry.AddMethodNeverReplaces | rpc-server/src/main/java/com/carpanese/rpc/server/RpcEndpoint.java:109-111 | a second registration of a name is refused, whatever its handler |
| Registry.ReservedNamesNeedInternal | rpc-server/src/main/java/com/carpanese/rpc/server/RpcEndpoint.java:102-107 | a free name made of the prefix, a dot and a suffix is refused to users and accepted internally; the bare prefix is not reserved |
| Endpoint.BuiltinNameIsReserved | rpc-server/src/main/java/com/carpanese/rpc/server/RpcEndpoint.java:349-352 | every built-in name is non-blank and reserved, so only the internal flag lets it through |
| Endpoint.BuiltinNamesDistinct | rpc-server/src/main/java/com/carpanese/rpc/server/RpcEndpoint.java:352-423 | the five built-in names are pairwise distinct |
| Endpoint.RegisterBuiltinsSucceeds | rpc-server/src/main/java/com/carpanese/rpc/server/RpcEndpoint.java:348-441 | registering distinct built-ins whose names are free succeeds; it appends their names in order, stores their entries, keeps the rest, and keeps the table valid |
| Endpoint.NewEndpoint | rpc-server/src/main/java/com/carpanese/rpc/server/RpcEndpoint.java:49-76 | null options become the defaults, and a middleware manager exists exactly when middleware is enabled; the table is valid, and it is empty without introspection or holds exactly the five built-ins with it |
| Endpoint.UserNames | rpc-server/src/main/java/com/carpanese/rpc/server/RpcEndpoint.java:354-356 | the result lists exactly the given names that are not reserved |
| Endpoint.HandleSingle | rpc-server/src/main/java/com/carpanese/rpc/server/RpcEndpoint.java:244-289 | every dispatch response echoes the request id, carries version "2.0", and never has both a result and an error |
| Endpoint.BatchResponses | rpc-server/src/main/java/com/carpanese/rpc/server/RpcEndpoint.java:295-321 | a batch has one well-formed entry per element that asks for an answer |
| Endpoint.HandleRequest | rpc-server/src/main/java/com/carpanese/rpc/server/RpcEndpoint.java:185-239 | a non-null response id only answers a decoded single request and is its id; an array input always gets output |
| EndpointProperties.MalformedIsParseError | rpc-server/src/main/java/com/carpanese/rpc/server/RpcEndpoint.java:224-230 | unparsable input, and a single element that does not bind to a request, give one parse error "Invalid JSON" with a null id, and nothing runs |
| EndpointProperties.NullRequestIsInternalError | rpc-server/src/main/java/com/carpanese/rpc/server/RpcEndpoint.java:231-237 | a single `null` request gives one internal error "Internal error" with a null id |
| EndpointProperties.SingleRequestOutput | rpc-server/src/main/java/com/carpanese/rpc/server/RpcEndpoint.java:213-222 | a single request is dispatched; its response is returned unless it is a notification, which gets no output |
| EndpointProperties.BatchRefusedIff | rpc-server/src/main/java/com/carpanese/rpc/server/RpcEndpoint.java:190-212 | an array is refused exactly when batching is off, it is empty, or it exceeds a positive limit; a refusal is one invalid-request error with a null id and runs nothing; otherwise the output is the batch |
| EndpointProperties.BatchRefusalMessages | rpc-server/src/main/java/com/carpanese/rpc/server/RpcEndpoint.java:191-209 | the three refusal messages, the limit's numeral included |
| EndpointProperties.DefaultBatchLimit | rpc-server/src/main/java/com/carpanese/rpc/server/RpcOptions.java:12 | with default options a batch of 100 is processed and one of 101 is refused with "Batch size exceeds maximum of 100" |
| EndpointProperties.InvalidInBatchShape | rpc-server/src/main/java/com/carpanese/rpc/server/RpcEndpoint.java:311-317 | an element that fails is answered by an invalid-request error with a null id |
| EndpointProperties.BatchAppend | rpc-server/src/main/java/com/carpanese/rpc/server/RpcEndpoint.java:302-319 | a batch's responses and calls, for a concatenation of elements, are the concatenations of those of the parts |
| EndpointProperties.BatchInOrder | rpc-server/src/main/java/com/carpanese/rpc/server/RpcEndpoint.java:302-319 | without notifications, entry i answers element i |
| EndpointProperties.BatchIdsComeFromRequests | rpc-server/src/main/java/com/carpanese/rpc/server/RpcEndpoint.java:302-319 | every entry with a non-null id echoes the id of a request in the batch |
| EndpointProperties.AllNotificationsGiveEmptyArray | rpc-server/src/main/java/com/carpanese/rpc/server/RpcEndpoint.java:307-321 | a batch of notifications only is answered with an empty array |
| EndpointProperties.NoAnsweredCountsZero | rpc-server/src/main/java/com/carpanese/rpc/server/RpcEndpoint.java:307-310 | elements that ask for no answer contribute no entry |
| EndpointProperties.InvalidRequestRunsNothing | rpc-server/src/main/java/com/carpanese/rpc/server/RpcEndpoint.java:327-335 | validation fails exactly for a version other than "2.0" or a blank method; the request then gets an invalid-request error with its id, and no hook or handler runs |
| EndpointProperties.WhitespaceMethodPassesConstructorOnly | rpc-server/src/main/java/com/carpanese/rpc/server/RpcEndpoint.java:328-334 | a method of spaces passes the request constructor but is answered "Method name is required"; a wrong version gets its own message |
| EndpointProperties.BeforeHookFailureStopsDispatch | rpc-server/src/main/java/com/carpanese/rpc/server/RpcEndpoint.java:250-252 | a failing before hook gives the mapped error; the hooks up to and including it ran, and no method was looked up or called |
| EndpointProperties.UnknownMethodAfterBeforeHooks | rpc-server/src/main/java/com/carpanese/rpc/server/RpcEndpoint.java:255-259 | an unknown method gives the method-not-found error after every before hook, and no handler runs |
| EndpointProperties.ErrorMapping | rpc-server/src/main/java/com/carpanese/rpc/server/RpcEndpoint.java:276-288 | an `RpcException` gives its own error; any other exception gives an internal error, whose message is "Internal error" when errors are sanitized and the exception's message otherwise |
| EndpointProperties.HandlerFailureSkipsAfterHooks | rpc-server/src/main/java/com/carpanese/rpc/server/RpcEndpoint.java:262-266 | a handler that throws gives the mapped error; the before hooks and the handler ran, and no after hook ran |
| EndpointProperties.SuccessCarriesResult | rpc-server/src/main/java/com/carpanese/rpc/server/RpcEndpoint.java:262-274 | a handler that returns, with passing after hooks, gives its result under the request id; the before hooks, the handler and the after hooks ran in that order |
| EndpointProperties.AfterHookFailureReplacesResult | rpc-server/src/main/java/com/carpanese/rpc/server/RpcEndpoint.java:264-267 | a failing after hook turns the call into an error response, although the handler ran |
| EndpointProperties.NoMiddlewareNoHooks | rpc-server/src/main/java/com/carpanese/rpc/server/RpcEndpoint.java:250-266 | without a middleware manager no hook runs |
| EndpointProperties.ListMethodsReportsUserMethods | rpc-server/src/main/java/com/carpanese/rpc/server/RpcEndpoint.java:352-359 | `listMethods` reports exactly the registered names that are not reserved |
| EndpointProperties.UserNamesDistinct | rpc-server/src/main/java/com/carpanese/rpc/server/RpcEndpoint.java:354-356 | filtering out reserved names keeps a list free of duplicates |
| EndpointProperties.MethodCountCountsUserMethods | rpc-server/src/main/java/com/carpanese/rpc/server/RpcEndpoint.java:424-434 | `capabilities` reports as `methodCount` the number of registered names that are not reserved, and reports introspection as on |
| EndpointProperties.DescribeAllSelects | rpc-server/src/main/java/com/carpanese/rpc/server/RpcEndpoint.java:395-404 | the descriptions are exactly those of the listed entries that are not reserved and expose their schema |
| EndpointProperties.DescribeAllReportsPublicSchemas | rpc-server/src/main/java/com/carpanese/rpc/server/RpcEndpoint.java:392-406 | `describeAll` describes each non-reserved registered method that exposes its schema, and nothing else |
| EndpointProperties.DescribeOutcomes | rpc-server/src/main/java/com/carpanese/rpc/server/RpcEndpoint.java:365-386 | params that are not an object with "method" give invalid params; an unknown name gives method-not-found; a known one gives its name, schema and description ("" when there is none) |
| EndpointProperties.DescribeNonStringNameIsInternalError | rpc-server/src/main/java/com/carpanese/rpc/server/RpcEndpoint.java:375-379 | `describe` given a method name that is JSON null or an object answers an internal error with the request id; its message is "Internal error" when errors are sanitized, and "JsonNull" or "JsonObject" otherwise |
| EndpointProperties.DescribeNonStringNameThrows | rpc-server/src/main/java/com/carpanese/rpc/server/RpcEndpoint.java:370-375 | the `describe` handler given a JSON-null or object name throws a non-RPC exception whose message is "JsonNull" or "JsonObject" |
| EndpointProperties.BuiltinNamesReserved | rpc-server/src/main/java/com/carpanese/rpc/server/RpcEndpoint.java:348-441 | every name the endpoint registers for itself is reserved |
| EndpointProperties.ListMethodsEmptyWhenAllReserved | rpc-server/src/main/java/com/carpanese/rpc/server/RpcEndpoint.java:352-359 | `listMethods` answers an empty array when every registered name is reserved |
| EndpointProperties.NewEndpointHasNoUserMethods | rpc-server/src/main/java/com/carpanese/rpc/server/RpcEndpoint.java:73-75 | with introspection on, a new endpoint holds the built-ins but lists no methods |
| SafeEndpoint.MergeSafeOptions | rpc-server/src/main/java/com/carpanese/rpc/server/RpcSafeEndpoint.java:63-67 | the effective options have safe mode on: the defaults when the caller gave none, otherwise the caller's own object, which is changed in place |
| SafeEndpoint.MergeSafeOptionsOnlySetsSafeMode | rpc-server/src/main/java/com/carpanese/rpc/server/RpcSafeEndpoint.java:63-67 | merging changes no field but safe mode, leaves options already in safe mode as they are, and is idempotent |
| SafeEndpoint.NewSafeEndpoint | rpc-server/src/main/java/com/carpanese/rpc/server/RpcSafeEndpoint.java:53-55 | a safe endpoint always runs with safe mode on and keeps its context |
| SafeEndpoint.SafeEndpointIsEndpoint | rpc-server/src/main/java/com/carpanese/rpc/server/RpcSafeEndpoint.java:32-55 | given options already in safe mode, a safe endpoint is the plain endpoint; given none, it is the default endpoint with safe mode on |

## Left out

- Logging (`RpcLogger`, `RpcLoggerOptions`, `RpcLogFormat`, the `loggerOptions` field and every `logger` call): it has no effect on any response.
- The HTTP transport of `RpcClient`, and the Android and cross-platform examples: these are network I/O.
- JSON text: Gson's parser and printer are outside the model. The endpoint takes the parsed shape of its input, and JSON numbers are integers.
- Endpoint.HandleRequest: the catch at RpcEndpoint.java:224 is modelled only for input that does not parse or does not bind to `RpcRequest`, which is how Gson reports such input; Gson's exception texts are not modelled.
- Gson's binding of an arbitrary element to `RpcRequest`: which elements bind is left to the caller of the model, who supplies a decoded request or marks the element as undecodable.
- The `javaVersion` member of the `version` built-in: it reads a system property.
- `timeoutSeconds` and `warnOnUnsafe` are stored and set, but nothing in the core reads them. `enableValidation` is read only by `capabilities`, because validation always runs.
- Unicode case folding in `equalsIgnoreCase`: the model folds ASCII letters only. The phase words the middleware manager compares against are ASCII, but a non-ASCII character that Java folds onto an ASCII letter is not modelled.
- Decimal.ParseIntRoundTrip: ASCII digits only. `new BigInteger` also accepts other Unicode decimal digits.
- Serializer.InstantRoundTrip: the ISO-8601 formatter and parser of `java.time` are parameters, assumed to round-trip and never to produce text starting with "D:".
- A `null` exception message, and throwables that are errors rather than exceptions: a thrown value always has a message string.
- `removeMethod(null)` and `getMethod(null)`, which throw inside the Java map: the model takes a name.
- Registry.ListMethodNames: the Java map is a `ConcurrentHashMap`, whose iteration order is unspecified. The model lists names in registration order, and the contract speaks only of membership and distinctness.
- Concurrency: calls into the endpoint are sequential.
- `MethodConfig` is mutated by `addMethod` (name and handler are stored into the caller's object). The model stores a copy, so later changes made by the caller through its reference are not reflected. Options changed after the endpoint is built are not reflected either.
- The NullHandler message: calling a method registered with a null handler throws a `NullPointerException`, whose text is modelled as a fixed placeholder.
- `getHeaders()` returns a copy. Maps are values in the model, so the copy is implicit.
- Durations are kept in nanoseconds, with no overflow.
- JsonValues.AsString: the message for an array whose size is not one follows recent Gson releases ("Array must have size 1, but has size n"). Older releases throw with no message. Only the fact that it throws is stated.
- The serializer's adapters apply to `String`, `Instant` and `BigInteger` values only. Gson writes a `JsonElement` tree with its own built-in adapter, which registered adapters cannot replace, so strings inside a tree are written untagged. The model serializes single values and does not model trees.
- The version check of `validateRequest` cannot fail for a request Gson builds: `jsonrpc` is a final field initialised to the constant "2.0". The model keeps the field and the check, so a request value with another version can still be stated and is rejected.
