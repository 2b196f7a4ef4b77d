/** What `RpcEndpoint` promises its callers: the error code of every
    failure, the order in which hooks and handlers run, the shape of batch
    output, and what the introspection built-ins report. */
module EndpointProperties {
  import opened Common
  import opened Decimal
  import opened JsonValues
  import opened Errors
  import opened Messages
  import opened Middleware
  import opened Options
  import opened Registry
  import opened Endpoint

  // ---- the entry point ----

  /** Input that is not JSON, and a single element that does not bind to a
      request, both give one parse error with a null id and call nothing. */
  lemma MalformedIsParseError<C>(ep: Endpoint<C>)
    ensures var h := HandleRequest(ep, Malformed);
            && h.output.One? && h.output.response.id == JNull && h.trace == []
            && h.output.response.error == Some(RpcError(ParseErrorCode, "Invalid JSON", JNull))
    ensures HandleRequest(ep, Single(Undecodable)) == HandleRequest(ep, Malformed)
  {
  }

  /** A single literal `null` makes dispatch throw outside the request's
      own error handling: one internal error with a null id. */
  lemma NullRequestIsInternalError<C>(ep: Endpoint<C>)
    ensures var h := HandleRequest(ep, Single(NullLiteral));
            && h.output.One? && h.output.response.id == JNull && h.trace == []
            && h.output.response.error == Some(RpcError(InternalErrorCode, "Internal error", JNull))
  {
  }

  /** A single request is answered with its dispatch response, except a
      notification, which gets no output although it was dispatched just
      the same (its handler ran, and may even have failed). */
  lemma SingleRequestOutput<C>(ep: Endpoint<C>, req: Request)
    ensures HandleRequest(ep, Single(Decoded(req))).trace == HandleSingle(ep, req).trace
    ensures IsNotification(req) ==> HandleRequest(ep, Single(Decoded(req))).output == Empty
    ensures !IsNotification(req) ==> HandleRequest(ep, Single(Decoded(req))).output == One(HandleSingle(ep, req).response)
  {
  }

  /** Whether the endpoint refuses an array as a whole. */
  predicate BatchRefused<C>(ep: Endpoint<C>, elems: seq<Elem>) {
    !ep.options.enableBatch || |elems| == 0 || ExceedsBatchLimit(ep.options, |elems|)
  }

  /** An array is refused as a whole exactly when batching is disabled, the
      array is empty, or a positive size limit is exceeded. A refusal is a
      single invalid-request error with a null id, and nothing runs. */
  lemma BatchRefusedIff<C>(ep: Endpoint<C>, elems: seq<Elem>)
    ensures var h := HandleRequest(ep, Array(elems));
            && (h.output.One? <==> BatchRefused(ep, elems))
            && (BatchRefused(ep, elems) ==>
                  && h.trace == [] && h.output.response.id == JNull
                  && h.output.response.error.Some? && h.output.response.error.value.code == InvalidRequestCode)
            && (!BatchRefused(ep, elems) ==> h.output == Many(BatchResponses(ep, elems).responses))
  {
  }

  /** The three refusal messages. */
  lemma BatchRefusalMessages<C>(ep: Endpoint<C>, elems: seq<Elem>)
    ensures !ep.options.enableBatch ==>
              HandleRequest(ep, Array(elems)).output.response.error.value.message == "Batch requests are not enabled"
    ensures ep.options.enableBatch && |elems| == 0 ==>
              HandleRequest(ep, Array(elems)).output.response.error.value.message == "Invalid batch request"
    ensures ep.options.enableBatch && |elems| > 0 && ExceedsBatchLimit(ep.options, |elems|) ==>
              HandleRequest(ep, Array(elems)).output.response.error.value.message
                == "Batch size exceeds maximum of " + IntToString(ep.options.maxBatchSize)
  {
  }

  /** With the default options a batch of 100 requests is processed and one
      of 101 is refused with the limit in the message. */
  lemma DefaultBatchLimit<C>(context: C, elems: seq<Elem>)
    ensures |elems| == 100 ==> HandleRequest(NewEndpoint(context, None), Array(elems)).output.Many?
    ensures |elems| == 101 ==>
              HandleRequest(NewEndpoint(context, None), Array(elems))
                == Rejected("Batch size exceeds maximum of 100")
  {
    assert DigitChar(0) == '0' && DigitChar(1) == '1';
    assert NatToString(10) == NatToString(1) + [DigitChar(0)] == "10";
    assert NatToString(100) == NatToString(10) + [DigitChar(0)] == "100";
    assert IntToString(100) == "100";
    var ep := NewEndpoint(context, None);
    assert ep.options == DefaultOptions();
    assert ep.options.maxBatchSize == 100;
    if |elems| == 101 {
      assert ExceedsBatchLimit(ep.options, |elems|);
      assert "Batch size exceeds maximum of " + IntToString(ep.options.maxBatchSize) == "Batch size exceeds maximum of 100";
    }
  }

  // ---- batches ----

  /** The entry a batch element contributes when it contributes one. */
  function EntryResponse<C>(ep: Endpoint<C>, e: Elem): Response {
    if e.Decoded? then HandleSingle(ep, e.request).response else InvalidInBatch()
  }

  /** The entry of an element that cannot be dispatched is an
      invalid-request error with a null id. */
  lemma InvalidInBatchShape()
    ensures InvalidInBatch().id == JNull
    ensures InvalidInBatch().error == Some(RpcError(InvalidRequestCode, "Invalid request in batch", JNull))
  {
  }

  /** Processing a batch is processing its parts one after the other: the
      responses and the calls of a concatenation are the concatenations. */
  lemma {:induction false} BatchAppend<C>(ep: Endpoint<C>, a: seq<Elem>, b: seq<Elem>)
    ensures BatchResponses(ep, a + b)
              == Batch(BatchResponses(ep, a).responses + BatchResponses(ep, b).responses,
                       BatchResponses(ep, a).trace + BatchResponses(ep, b).trace)
    decreases |a|
  {
    if |a| == 0 {
      assert a + b == b;
    } else {
      assert (a + b)[0] == a[0];
      assert (a + b)[1..] == a[1..] + b;
      BatchAppend(ep, a[1..], b);
      var head := BatchEntry(ep, a[0]);
      var ra, rb := BatchResponses(ep, a[1..]), BatchResponses(ep, b);
      AppendAssociates(head.responses, ra.responses, rb.responses);
      AppendAssociates(head.trace, ra.trace, rb.trace);
    }
  }

  /** Without notifications, a batch has one entry per element, in input
      order: the element's dispatch response, or the invalid-request entry
      for an element that could not be dispatched. */
  lemma {:induction false} BatchInOrder<C>(ep: Endpoint<C>, elems: seq<Elem>)
    requires forall i :: 0 <= i < |elems| ==> Answered(elems[i])
    ensures var r := BatchResponses(ep, elems).responses;
            |r| == |elems| && forall i :: 0 <= i < |elems| ==> r[i] == EntryResponse(ep, elems[i])
    decreases |elems|
  {
    if |elems| > 0 {
      BatchInOrder(ep, elems[1..]);
      var r := BatchResponses(ep, elems).responses;
      var rest := BatchResponses(ep, elems[1..]).responses;
      assert r == [EntryResponse(ep, elems[0])] + rest;
      forall i | 0 < i < |elems| ensures r[i] == EntryResponse(ep, elems[i]) {
        assert r[i] == rest[i - 1] && elems[1..][i - 1] == elems[i];
      }
    }
  }

  /** Every entry of a batch answers an element that asked for one: an
      entry with a non-null id echoes the id of a request in the batch. */
  lemma {:induction false} BatchIdsComeFromRequests<C>(ep: Endpoint<C>, elems: seq<Elem>)
    ensures forall r :: r in BatchResponses(ep, elems).responses && r.id != JNull ==>
              exists i :: 0 <= i < |elems| && elems[i].Decoded? && elems[i].request.id == r.id
    decreases |elems|
  {
    if |elems| > 0 {
      BatchIdsComeFromRequests(ep, elems[1..]);
      forall r | r in BatchResponses(ep, elems).responses && r.id != JNull
        ensures exists i :: 0 <= i < |elems| && elems[i].Decoded? && elems[i].request.id == r.id
      {
        if r in BatchEntry(ep, elems[0]).responses {
          assert elems[0].Decoded?;
        } else {
          var i :| 0 <= i < |elems[1..]| && elems[1..][i].Decoded? && elems[1..][i].request.id == r.id;
          assert elems[i + 1] == elems[1..][i];
        }
      }
    }
  }

  /** A batch of nothing but notifications is answered with an empty
      array, not with no output (section 6 of the JSON-RPC 2.0
      specification asks for no output here). */
  lemma AllNotificationsGiveEmptyArray<C>(ep: Endpoint<C>, elems: seq<Elem>)
    requires !BatchRefused(ep, elems)
    requires forall i :: 0 <= i < |elems| ==> elems[i].Decoded? && IsNotification(elems[i].request)
    ensures HandleRequest(ep, Array(elems)).output == Many([])
  {
    NoAnsweredCountsZero(elems);
  }

  lemma {:induction false} NoAnsweredCountsZero(elems: seq<Elem>)
    requires forall i :: 0 <= i < |elems| ==> !Answered(elems[i])
    ensures CountAnswered(elems) == 0
    decreases |elems|
  {
    if |elems| > 0 {
      assert !Answered(elems[0]);
      forall i | 0 <= i < |elems[1..]| ensures !Answered(elems[1..][i]) { assert elems[1..][i] == elems[i + 1]; }
      NoAnsweredCountsZero(elems[1..]);
    }
  }

  // ---- one request ----

  /** The number of before and after hooks the endpoint has. */
  function BeforeCount<C>(ep: Endpoint<C>): nat {
    if ep.middleware.Some? then |ep.middleware.value.beforeHooks| else 0
  }

  function AfterCount<C>(ep: Endpoint<C>): nat {
    if ep.middleware.Some? then |ep.middleware.value.afterHooks| else 0
  }

  /** A request fails validation exactly when its version is not "2.0" or
      its method is blank; it is then answered with an invalid-request
      error carrying its id, and no hook and no handler runs. */
  lemma InvalidRequestRunsNothing<C>(ep: Endpoint<C>, req: Request)
    ensures Validate(req).Some? <==> req.jsonrpc != "2.0" || IsBlank(req.methodName)
    ensures Validate(req).Some? ==>
              && HandleSingle(ep, req).trace == []
              && HandleSingle(ep, req).response.id == req.id
              && HandleSingle(ep, req).response.error.Some?
              && HandleSingle(ep, req).response.error.value.code == InvalidRequestCode
  {
  }

  /** The constructor accepts a method of spaces, which the endpoint then
      rejects as missing; a wrong version is rejected with its own
      message. */
  lemma WhitespaceMethodPassesConstructorOnly<C>(ep: Endpoint<C>, id: Json)
    ensures NewRequest(Some("  "), None, id).Ok?
    ensures HandleSingle(ep, NewRequest(Some("  "), None, id).value).response.error
              == Some(RpcError(InvalidRequestCode, "Method name is required", JNull))
    ensures HandleSingle(ep, Request("1.0", "sum", JNull, id)).response.error
              == Some(RpcError(InvalidRequestCode, "Invalid JSON-RPC version. Must be '2.0'", JNull))
  {
    BlankIffAllTrimmable("  ");
  }

  /** A failing before hook answers the request with the error mapped from
      what it threw; the hooks before it ran and the method was neither
      looked up nor called. */
  lemma BeforeHookFailureStopsDispatch<C>(ep: Endpoint<C>, req: Request)
    requires Validate(req).None? && RunBefore(ep, req).status.Fail?
    ensures var d := HandleSingle(ep, req);
            && d.response == ErrorResponse(ErrorFor(ep.options, RunBefore(ep, req).status.thrown), req.id)
            && d.trace == BeforeEvents(RunBefore(ep, req).invoked)
            && 0 < RunBefore(ep, req).invoked <= BeforeCount(ep)
  {
  }

  /** An unknown method is reported with the method-not-found error of the
      error factory, after every before hook has run; no handler runs. */
  lemma UnknownMethodAfterBeforeHooks<C>(ep: Endpoint<C>, req: Request)
    requires Validate(req).None? && RunBefore(ep, req).status.Pass?
    requires req.methodName !in ep.registry.entries
    ensures HandleSingle(ep, req).response == ErrorResponse(MethodNotFound(req.methodName), req.id)
    ensures HandleSingle(ep, req).trace == BeforeEvents(BeforeCount(ep))
  {
  }

  /** How a throw is mapped: an `RpcException` gives its own error
      unchanged, anything else an internal error whose message is "Internal
      error" when errors are sanitized and the exception's message when
      not. */
  lemma ErrorMapping(options: RpcOptions, thrown: Thrown)
    ensures thrown.RpcThrown? ==> ErrorFor(options, thrown) == thrown.exception.error
    ensures thrown.OtherThrown? && options.sanitizeErrors ==>
              ErrorFor(options, thrown) == RpcError(InternalErrorCode, "Internal error", JNull)
    ensures thrown.OtherThrown? && !options.sanitizeErrors ==>
              ErrorFor(options, thrown) == RpcError(InternalErrorCode, thrown.message, JNull)
  {
  }

  /** A handler that throws: its failure is mapped, all before hooks and
      the handler ran, and no after hook ran. */
  lemma HandlerFailureSkipsAfterHooks<C>(ep: Endpoint<C>, req: Request)
    requires Validate(req).None? && RunBefore(ep, req).status.Pass?
    requires req.methodName in ep.registry.entries
    requires Invoke(ep, ep.registry.entries[req.methodName].handler, req.params).Threw?
    ensures var x := Invoke(ep, ep.registry.entries[req.methodName].handler, req.params).thrown;
            HandleSingle(ep, req).response == ErrorResponse(ErrorFor(ep.options, x), req.id)
    ensures HandleSingle(ep, req).trace == BeforeEvents(BeforeCount(ep)) + [HandlerCall(req.methodName)]
  {
  }

  /** A handler that returns, with every after hook passing: the response
      carries the handler's result and the request's id, and every before
      hook, the handler and every after hook ran, in that order. */
  lemma SuccessCarriesResult<C>(ep: Endpoint<C>, req: Request)
    requires Validate(req).None? && RunBefore(ep, req).status.Pass?
    requires req.methodName in ep.registry.entries
    requires Invoke(ep, ep.registry.entries[req.methodName].handler, req.params).Returned?
    requires RunAfter(ep, req, Invoke(ep, ep.registry.entries[req.methodName].handler, req.params).value).status.Pass?
    ensures var v := Invoke(ep, ep.registry.entries[req.methodName].handler, req.params).value;
            HandleSingle(ep, req).response == SuccessResponse(v, req.id)
    ensures HandleSingle(ep, req).trace
              == BeforeEvents(BeforeCount(ep)) + [HandlerCall(req.methodName)] + AfterEvents(AfterCount(ep))
  {
  }

  /** An after hook that throws turns a successful call into an error
      response, although the handler has already run. */
  lemma AfterHookFailureReplacesResult<C>(ep: Endpoint<C>, req: Request)
    requires Validate(req).None? && RunBefore(ep, req).status.Pass?
    requires req.methodName in ep.registry.entries
    requires Invoke(ep, ep.registry.entries[req.methodName].handler, req.params).Returned?
    requires RunAfter(ep, req, Invoke(ep, ep.registry.entries[req.methodName].handler, req.params).value).status.Fail?
    ensures var v := Invoke(ep, ep.registry.entries[req.methodName].handler, req.params).value;
            var after := RunAfter(ep, req, v);
            && HandleSingle(ep, req).response == ErrorResponse(ErrorFor(ep.options, after.status.thrown), req.id)
            && HandlerCall(req.methodName) in HandleSingle(ep, req).trace
  {
    var v := Invoke(ep, ep.registry.entries[req.methodName].handler, req.params).value;
    var t := BeforeEvents(BeforeCount(ep)) + [HandlerCall(req.methodName)];
    assert t[|t| - 1] == HandlerCall(req.methodName);
    assert HandleSingle(ep, req).trace == t + AfterEvents(RunAfter(ep, req, v).invoked);
    assert HandleSingle(ep, req).trace[|t| - 1] == HandlerCall(req.methodName);
  }

  /** Without middleware, the hook phases are skipped entirely. */
  lemma NoMiddlewareNoHooks<C>(ep: Endpoint<C>, req: Request)
    requires ep.middleware.None?
    ensures forall e :: e in HandleSingle(ep, req).trace ==> e.HandlerCall?
  {
  }

  // ---- introspection ----

  /** `listMethods` reports each registered name that is not reserved, and
      nothing else. */
  lemma ListMethodsReportsUserMethods<C>(ep: Endpoint<C>, params: Json)
    requires Valid(ep.registry)
    ensures var r := RunBuiltin(ep, ListMethods, params);
            && r.Returned? && r.value.JArr?
            && (forall j :: 0 <= j < |r.value.items| ==>
                  && r.value.items[j].JStr?
                  && r.value.items[j].s in ep.registry.entries
                  && !IsReserved(r.value.items[j].s, ep.prefix))
            && (forall k :: k in ep.registry.entries && !IsReserved(k, ep.prefix) ==> JStr(k) in r.value.items)
  {
    var names := UserNames(ep.registry.order, ep.prefix);
    var items := RunBuiltin(ep, ListMethods, params).value.items;
    assert forall j :: 0 <= j < |items| ==> items[j] == JStr(names[j]);
    forall k | k in ep.registry.entries && !IsReserved(k, ep.prefix) ensures JStr(k) in items {
      var j :| 0 <= j < |names| && names[j] == k;
      assert items[j] == JStr(k);
    }
  }

  /** Removing a reserved name keeps a list free of duplicates. */
  lemma {:induction false} UserNamesDistinct(names: seq<string>, prefix: string)
    requires NoDuplicates(names)
    ensures NoDuplicates(UserNames(names, prefix))
    decreases |names|
  {
    if |names| > 0 {
      assert NoDuplicates(names[1..]) by {
        forall i, j | 0 <= i < j < |names[1..]| ensures names[1..][i] != names[1..][j] {
          assert names[1..][i] == names[i + 1] && names[1..][j] == names[j + 1];
        }
      }
      UserNamesDistinct(names[1..], prefix);
      if !IsReserved(names[0], prefix) {
        var rest := UserNames(names[1..], prefix);
        assert names[0] !in names[1..] by {
          forall j | 0 <= j < |names[1..]| ensures names[1..][j] != names[0] { assert names[1..][j] == names[j + 1]; }
        }
        var r := [names[0]] + rest;
        forall i, j | 0 <= i < j < |r| ensures r[i] != r[j] {
          if i == 0 { assert r[j] == rest[j - 1]; } else { assert r[i] == rest[i - 1] && r[j] == rest[j - 1]; }
        }
      }
    }
  }

  /** A list without duplicates has as many elements as the set of them. */
  lemma {:induction false} DistinctCardinality(s: seq<string>)
    requires NoDuplicates(s)
    ensures |set x | x in s| == |s|
    decreases |s|
  {
    if |s| > 0 {
      var tail := s[1..];
      assert NoDuplicates(tail) by {
        forall i, j | 0 <= i < j < |tail| ensures tail[i] != tail[j] { assert tail[i] == s[i + 1] && tail[j] == s[j + 1]; }
      }
      DistinctCardinality(tail);
      assert s[0] !in tail by {
        forall j | 0 <= j < |tail| ensures tail[j] != s[0] { assert tail[j] == s[j + 1]; }
      }
      assert (set x | x in s) == {s[0]} + (set x | x in tail) by {
        assert s == [s[0]] + tail;
      }
    }
  }

  /** `capabilities` counts the registered names that are not reserved. */
  lemma MethodCountCountsUserMethods<C>(ep: Endpoint<C>, params: Json)
    requires Valid(ep.registry)
    ensures var r := RunBuiltin(ep, Capabilities, params);
            && r.Returned? && r.value.JObj? && "methodCount" in r.value.members
            && r.value.members["methodCount"] == JNum(|set k | k in ep.registry.entries && !IsReserved(k, ep.prefix)|)
            && r.value.members["introspection"] == JBool(true)
  {
    var names := UserNames(ep.registry.order, ep.prefix);
    UserNamesDistinct(ep.registry.order, ep.prefix);
    DistinctCardinality(names);
    assert (set x | x in names) == (set k | k in ep.registry.entries && !IsReserved(k, ep.prefix));
  }

  /** `describeAll` describes exactly the listed entries that are not
      reserved and expose their schema. */
  lemma {:induction false} DescribeAllSelects<C>(reg: Registry<C>, names: seq<string>, prefix: string)
    ensures forall x :: x in DescribeAllInfos(reg, names, prefix) ==>
              exists k :: k in names && k in reg.entries && Described(reg.entries[k], prefix) && x == MethodInfo(reg.entries[k])
    ensures forall k :: k in names && k in reg.entries && Described(reg.entries[k], prefix) ==>
              MethodInfo(reg.entries[k]) in DescribeAllInfos(reg, names, prefix)
    decreases |names|
  {
    if |names| > 0 {
      DescribeAllSelects(reg, names[1..], prefix);
      forall k | k in names && k != names[0] ensures k in names[1..] {
        var i :| 0 <= i < |names| && names[i] == k;
        assert names[1..][i - 1] == k;
      }
    }
  }

  /** Applied to an endpoint whose table is valid: every described method
      is a registered user method exposing its schema, and each such
      method is described. */
  lemma DescribeAllReportsPublicSchemas<C>(ep: Endpoint<C>, params: Json)
    requires Valid(ep.registry)
    ensures var r := RunBuiltin(ep, DescribeAll, params);
            && r.Returned? && r.value.JArr?
            && (forall x :: x in r.value.items ==>
                  exists k :: k in ep.registry.entries && !IsReserved(k, ep.prefix)
                              && ep.registry.entries[k].config.exposeSchema && x == MethodInfo(ep.registry.entries[k]))
            && (forall k :: k in ep.registry.entries && !IsReserved(k, ep.prefix) && ep.registry.entries[k].config.exposeSchema ==>
                  MethodInfo(ep.registry.entries[k]) in r.value.items)
  {
    DescribeAllSelects(ep.registry, ep.registry.order, ep.prefix);
  }

  /** `describe`: params that are not an object with a "method" member give
      an invalid-params error; an unknown name gives method-not-found; a
      known name, reserved or not, gives its name, schema and description,
      the description being "" when there is none. */
  lemma DescribeOutcomes<C>(reg: Registry<C>, params: Json, name: string)
    ensures !params.JObj? || "method" !in params.members ==>
              RunDescribe(reg, params) == Threw(RpcThrown(ExceptionFromError(RpcError(InvalidParamsCode, "Method name required", JNull))))
    ensures name !in reg.entries ==>
              RunDescribe(reg, JObj(map["method" := JStr(name)]))
                == Threw(RpcThrown(ExceptionFromError(MethodNotFound(name))))
    ensures name in reg.entries ==>
              && RunDescribe(reg, JObj(map["method" := JStr(name)])) == Returned(MethodInfo(reg.entries[name]))
              && MethodInfo(reg.entries[name]).members["name"] == JStr(reg.entries[name].name)
              && (reg.entries[name].config.description.None? ==>
                    MethodInfo(reg.entries[name]).members["description"] == JStr(""))
    ensures RunDescribe(reg, JObj(map["method" := JNull])).Threw?
    ensures RunDescribe(reg, JObj(map["method" := JNull])).thrown.OtherThrown?
  {
  }

  /** `describe` given a method name that is JSON null or an object: the
      handler's `getAsString` throws an exception that is not an
      `RpcException`, so the request is answered with an internal error,
      whose message is the exception's own ("JsonNull", "JsonObject") when
      errors are not sanitized. */
  lemma DescribeNonStringNameIsInternalError<C>(ep: Endpoint<C>, req: Request, name: Json)
    requires req.jsonrpc == "2.0" && req.methodName == BuiltinName(ep.prefix, Describe)
    requires req.params == JObj(map["method" := name]) && (name.JNull? || name.JObj?)
    requires req.methodName in ep.registry.entries
    requires ep.registry.entries[req.methodName].handler == Builtin(Describe)
    requires RunBefore(ep, req).status.Pass?
    ensures var message := if ep.options.sanitizeErrors then "Internal error"
                           else if name.JNull? then "JsonNull" else "JsonObject";
            HandleSingle(ep, req).response.error == Some(RpcError(InternalErrorCode, message, JNull))
    ensures HandleSingle(ep, req).response.id == req.id
  {
    BuiltinNameIsReserved(ep.prefix, Describe);
    assert Validate(req).None?;
    DescribeNonStringNameThrows(ep.registry, name);
    assert Invoke(ep, ep.registry.entries[req.methodName].handler, req.params)
        == Threw(OtherThrown(if name.JNull? then "JsonNull" else "JsonObject"));
    HandlerFailureSkipsAfterHooks(ep, req);
  }

  /** The `describe` handler's own outcome for such a name. */
  lemma DescribeNonStringNameThrows<C>(reg: Registry<C>, name: Json)
    requires name.JNull? || name.JObj?
    ensures RunDescribe(reg, JObj(map["method" := name]))
              == Threw(OtherThrown(if name.JNull? then "JsonNull" else "JsonObject"))
  {
    assert JObj(map["method" := name]).members["method"] == name;
  }

  /** Built-in names are all reserved. */
  lemma BuiltinNamesReserved(prefix: string, kinds: seq<Introspection>)
    ensures forall k :: k in BuiltinNames(prefix, kinds) ==> IsReserved(k, prefix)
  {
    var names := BuiltinNames(prefix, kinds);
    forall k | k in names ensures IsReserved(k, prefix) {
      var i :| 0 <= i < |names| && names[i] == k;
      BuiltinNameIsReserved(prefix, kinds[i]);
    }
  }

  /** The names a built-in reports are none when every listed name is
      reserved. */
  lemma NoUserNamesAmongReserved(names: seq<string>, prefix: string)
    requires forall k :: k in names ==> IsReserved(k, prefix)
    ensures UserNames(names, prefix) == []
  {
  }

  /** `listMethods` answers an empty list when every name is reserved. */
  lemma ListMethodsEmptyWhenAllReserved<C>(ep: Endpoint<C>, params: Json)
    requires forall k :: k in ep.registry.order ==> IsReserved(k, ep.prefix)
    ensures RunBuiltin(ep, ListMethods, params) == Returned(JArr([]))
  {
    NoUserNamesAmongReserved(ep.registry.order, ep.prefix);
    var names := UserNames(ep.registry.order, ep.prefix);
    assert seq(|names|, i requires 0 <= i < |names| => JStr(names[i])) == [];
  }

  /** With introspection on, a new endpoint has the built-ins registered
      but answers `listMethods` with an empty list: the built-ins hide
      themselves. */
  lemma NewEndpointHasNoUserMethods<C>(context: C, options: RpcOptions, params: Json)
    requires options.enableIntrospection
    ensures BuiltinName(options.introspectionPrefix, ListMethods) in NewEndpoint(context, Some(options)).registry.entries
    ensures RunBuiltin(NewEndpoint(context, Some(options)), ListMethods, params) == Returned(JArr([]))
  {
    var ep := NewEndpoint(context, Some(options));
    assert BuiltinName(ep.prefix, Builtins[0]) in ep.registry.entries;
    BuiltinNamesReserved(ep.prefix, Builtins);
    ListMethodsEmptyWhenAllReserved(ep, params);
  }
}
