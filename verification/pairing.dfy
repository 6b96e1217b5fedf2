/** Two endpoints piped into each other: a call made on one is answered by
    the target of the other, and the answer reaches the stored callback. */
module Pairing {
  import opened Outcomes
  import opened Decimal
  import opened JsValue
  import opened JsonText
  import opened Frames
  import opened Router
  import opened Endpoint
  import opened Correlation

  /** The params array the handler sees for the params passed to `invoke`. */
  function HandlerItems(params: JsArg): seq<Json>
    requires !BadParams(params)
  {
    if TruthyOpt(ArgValue(params)) then ArgValue(params).value.items else []
  }

  /** The invocation the serving side makes for a call on `route`. */
  function ServedCall(target: Target, route: string, params: JsArg): Invocation
    requires Resolve(target, route).Some? && Resolve(target, route).value.Fn?
    requires !BadParams(params)
  {
    Invocation(Resolve(target, route).value.handler, Descend(target, Split(route)).0, AsData(HandlerItems(params)) + [Continuation])
  }

  /** The serving side routes a decoded request frame to the handler with
      the params it was sent. */
  lemma ServeRequest(server: Endpoint, route: string, id: nat, params: JsArg, run: Invocation -> HandlerOutcome)
    requires TargetTruthy(server.target) && PlainText(route) && id >= 1
    requires Resolve(server.target, route).Some? && Resolve(server.target, route).value.Fn?
    requires !params.Func? && !BadParams(params)
    ensures var line := Request(Some(route), Some(id), ArgValue(params), false).value + "\n";
      && Decode(line).Some? && Classify(Decode(line).value) == RequestKind
      && Receive(server, line, run) == HandleRequest(server, Decode(line).value.fields, run)
      && EvalRoute(server.target, Field(Decode(line).value.fields, "method"), Field(Decode(line).value.fields, "params"), run)
         == EvalRoute(server.target, Some(JStr(route)), if NotNull(ArgValue(params)) then ArgValue(params) else None, run)
      && RouteBody(server.target, Some(JStr(route)), if NotNull(ArgValue(params)) then ArgValue(params) else None, run)
         == Outcome(run(ServedCall(server.target, route, params)))
      && Field(Decode(line).value.fields, "id") == Some(JNum(id))
  {
    RequestRoundTrip(route, Some(id), ArgValue(params));
    var p := if NotNull(ArgValue(params)) then ArgValue(params) else None;
    HandlerCallShape(server.target, route, p, run);
  }

  /** The calling side hands a response for a pending id to its callback,
      spreading the result array, and forgets the id. */
  lemma DeliverResponse(client: Endpoint, id: nat, values: seq<Json>, run: Invocation -> HandlerOutcome)
    requires id >= 1 && id in client.pending
    ensures var line := Response(Some(id), Some(JArr(values)), false).value + "\n";
      Receive(client, line, run) == Step(client.(pending := client.pending - {id},
        fired := client.fired + [Firing(client.pending[id], Resolved(values))]), None)
  {
    ResponseRoundTrip(id, JArr(values));
    NumericIdMatches(client, id);
  }

  /** The calling side hands an error for a pending id to its callback. */
  lemma DeliverError(client: Endpoint, id: nat, code: int, message: string, run: Invocation -> HandlerOutcome)
    requires id >= 1 && id in client.pending && PlainText(message)
    ensures var line := Error(Some(id), Some(code), Some(message), Some(JNull), false).value + "\n";
      Receive(client, line, run) == Step(client.(pending := client.pending - {id},
        fired := client.fired + [Firing(client.pending[id], Rejected(message + " (" + IntToString(code) + ")", Some(JNum(code)), None))]), None)
  {
    ErrorRoundTrip(id, code, message, Some(JNull));
    NumericIdMatches(client, id);
    ErrorBodyFields(code, message, Some(JNull));
  }

  /** Storing under a fresh id and then forgetting that id restores the table. */
  lemma StoreThenForget(pending: map<nat, CallbackId>, id: nat, c: CallbackId)
    requires id !in pending
    ensures pending[id := c] - {id} == pending
  {
    assert (pending[id := c] - {id}).Keys == pending.Keys;
  }

  /** End to end: the handler's completion values reach the caller's
      callback unchanged, and the caller's table is back as it was. */
  lemma CallAndAnswer(client: Endpoint, server: Endpoint, route: string, params: JsArg, c: CallbackId,
                      run: Invocation -> HandlerOutcome, values: seq<Json>)
    requires WellFormed(client) && PlainText(route)
    requires TargetTruthy(server.target)
    requires Resolve(server.target, route).Some? && Resolve(server.target, route).value.Fn?
    requires !params.Func? && !BadParams(params)
    requires run(ServedCall(server.target, route, params)) == CalledBack(JNull, values)
    ensures var sent := Invoke(client, Some(route), params, Func(c), false);
      && sent.thrown.None?
      && var served := Receive(server, sent.ep.out[|client.out|], run);
      && served.thrown.None? && |served.ep.out| == |server.out| + 1
      && var answered := Receive(sent.ep, served.ep.out[|server.out|], run);
      && answered.thrown.None?
      && answered.ep.pending == client.pending
      && answered.ep.fired == client.fired + [Firing(c, Resolved(values))]
  {
    var id := client.counter + 1;
    InvokeWithCallback(client, route, params, c);
    var sent := Invoke(client, Some(route), params, Func(c), false);
    assert sent.ep.out[|client.out|] == Request(Some(route), Some(id), ArgValue(params), false).value + "\n";
    AnswerDelivered(sent.ep, server, route, id, params, run, values);
    StoreThenForget(client.pending, id, c);
  }

  /** The served answer to a request reaches the callback waiting under its id. */
  lemma AnswerDelivered(waiting: Endpoint, server: Endpoint, route: string, id: nat, params: JsArg,
                        run: Invocation -> HandlerOutcome, values: seq<Json>)
    requires TargetTruthy(server.target) && PlainText(route) && id >= 1
    requires Resolve(server.target, route).Some? && Resolve(server.target, route).value.Fn?
    requires !params.Func? && !BadParams(params)
    requires run(ServedCall(server.target, route, params)) == CalledBack(JNull, values)
    requires id in waiting.pending
    ensures var served := Receive(server, Request(Some(route), Some(id), ArgValue(params), false).value + "\n", run);
      && served.thrown.None? && |served.ep.out| == |server.out| + 1
      && Receive(waiting, served.ep.out[|server.out|], run) == Step(waiting.(pending := waiting.pending - {id},
           fired := waiting.fired + [Firing(waiting.pending[id], Resolved(values))]), None)
  {
    var line := Request(Some(route), Some(id), ArgValue(params), false).value + "\n";
    ServeRequest(server, route, id, params, run);
    var fields := Decode(line).value.fields;
    assert EvalRoute(server.target, Field(fields, "method"), Field(fields, "params"), run) == Replied(values);
    CompletedRequestAnswered(server, fields, run, id);
    var served := Receive(server, line, run);
    assert served.ep.out[|server.out|] == Response(Some(id), Some(JArr(values)), false).value + "\n" by {
      AnswerLine(server, fields, run, id);
    }
    DeliverResponse(waiting, id, values, run);
  }

  /** The serving side answers a request whose handler throws with one
      internal-error frame. */
  lemma ServeFailing(server: Endpoint, route: string, id: nat, params: JsArg, run: Invocation -> HandlerOutcome)
    requires TargetTruthy(server.target) && PlainText(route) && id >= 1
    requires Resolve(server.target, route).Some? && Resolve(server.target, route).value.Fn?
    requires !params.Func? && !BadParams(params)
    requires run(ServedCall(server.target, route, params)) == Threw
    ensures var line := Request(Some(route), Some(id), ArgValue(params), false).value + "\n";
      Receive(server, line, run) == Step(server.(out := server.out
        + [Error(Some(id), Some(InternalError), Some("Internal error"), Some(JNull), false).value + "\n"]), None)
  {
    var line := Request(Some(route), Some(id), ArgValue(params), false).value + "\n";
    ServeRequest(server, route, id, params, run);
    var fields := Decode(line).value.fields;
    assert EvalRoute(server.target, Field(fields, "method"), Field(fields, "params"), run) == Failed(InternalError, "Internal error", JNull);
    AnswerLine(server, fields, run, id);
  }

  /** The message of the error instance a caller gets for an internal error. */
  const InternalErrorMessage: string := "Internal error" + " (" + IntToString(InternalError) + ")"

  /** That message is `Internal error (-32603)`. */
  lemma InternalErrorMessageText()
    ensures InternalErrorMessage == "Internal error (-32603)"
  {
    assert NatToString(3) == "3";
    assert NatToString(32) == "32";
    assert NatToString(326) == "326";
    assert NatToString(3260) == "3260";
    assert NatToString(32603) == "32603";
    assert IntToString(-32603) == "-32603";
  }

  /** End to end: a handler that throws makes the caller's callback receive
      an internal error, with code -32603 and no data. */
  lemma CallAndFail(client: Endpoint, server: Endpoint, route: string, params: JsArg, c: CallbackId,
                    run: Invocation -> HandlerOutcome)
    requires WellFormed(client) && PlainText(route)
    requires TargetTruthy(server.target)
    requires Resolve(server.target, route).Some? && Resolve(server.target, route).value.Fn?
    requires !params.Func? && !BadParams(params)
    requires run(ServedCall(server.target, route, params)) == Threw
    ensures var sent := Invoke(client, Some(route), params, Func(c), false);
      && sent.thrown.None?
      && var served := Receive(server, sent.ep.out[|client.out|], run);
      && served.thrown.None? && |served.ep.out| == |server.out| + 1
      && var answered := Receive(sent.ep, served.ep.out[|server.out|], run);
      && answered.thrown.None?
      && answered.ep.pending == client.pending
      && answered.ep.fired == client.fired
           + [Firing(c, Rejected(InternalErrorMessage, Some(JNum(InternalError)), None))]
  {
    var id := client.counter + 1;
    InvokeWithCallback(client, route, params, c);
    var sent := Invoke(client, Some(route), params, Func(c), false);
    assert sent.ep.out[|client.out|] == Request(Some(route), Some(id), ArgValue(params), false).value + "\n";
    FailureDelivered(sent.ep, server, route, id, params, run);
    StoreThenForget(client.pending, id, c);
  }

  /** The internal error served for a throwing handler reaches the callback
      waiting under the request's id. */
  lemma FailureDelivered(waiting: Endpoint, server: Endpoint, route: string, id: nat, params: JsArg,
                         run: Invocation -> HandlerOutcome)
    requires TargetTruthy(server.target) && PlainText(route) && id >= 1
    requires Resolve(server.target, route).Some? && Resolve(server.target, route).value.Fn?
    requires !params.Func? && !BadParams(params)
    requires run(ServedCall(server.target, route, params)) == Threw
    requires id in waiting.pending
    ensures var served := Receive(server, Request(Some(route), Some(id), ArgValue(params), false).value + "\n", run);
      && served.thrown.None? && |served.ep.out| == |server.out| + 1
      && Receive(waiting, served.ep.out[|server.out|], run) == Step(waiting.(pending := waiting.pending - {id},
           fired := waiting.fired + [Firing(waiting.pending[id], Rejected(InternalErrorMessage, Some(JNum(InternalError)), None))]), None)
  {
    ServeFailing(server, route, id, params, run);
    var errLine := Error(Some(id), Some(InternalError), Some("Internal error"), Some(JNull), false).value + "\n";
    var served := Receive(server, Request(Some(route), Some(id), ArgValue(params), false).value + "\n", run);
    assert served.ep.out[|server.out|] == errLine;
    InternalErrorPlain();
    DeliverError(waiting, id, InternalError, "Internal error", run);
  }

  // ---------------------------------------------------------------------
  // Route scenarios.
  // ---------------------------------------------------------------------

  /** `{fs: {readdir: <handler 1>}}`. */
  const FsTarget: Target := Obj(map["fs" := Obj(map["readdir" := Fn(1)])])

  lemma SplitFsReaddir()
    ensures Split("fs.readdir") == ["fs", "readdir"]
    ensures Split("fs.nope") == ["fs", "nope"]
    ensures Split("nope.foo") == ["nope", "foo"]
  {
    assert Join(["fs", "readdir"]) == "fs.readdir";
    assert Join(["fs", "nope"]) == "fs.nope";
    assert Join(["nope", "foo"]) == "nope.foo";
    JoinSplit(["fs", "readdir"]);
    JoinSplit(["fs", "nope"]);
    JoinSplit(["nope", "foo"]);
  }

  lemma SplitRepeatedPrefix()
    ensures Split("fs.fs.readdir") == ["fs", "fs", "readdir"]
    ensures Split("fs.fs.fs.readdir") == ["fs", "fs", "fs", "readdir"]
  {
    assert Join(["fs", "readdir"]) == "fs.readdir";
    assert Join(["fs", "fs", "readdir"]) == "fs.fs.readdir";
    assert Join(["fs", "fs", "fs", "readdir"]) == "fs.fs.fs.readdir";
    JoinSplit(["fs", "fs", "readdir"]);
    JoinSplit(["fs", "fs", "fs", "readdir"]);
  }

  /** A full route reaches the handler. */
  lemma FsRoutes()
    ensures Resolve(FsTarget, "fs.readdir") == Some(Fn(1))
  {
    SplitFsReaddir();
  }

  /** A missing last segment reaches nothing. */
  lemma MissingLastSegment()
    ensures Resolve(FsTarget, "fs.nope") == None
  {
    SplitFsReaddir();
  }

  /** A missing first segment is skipped: `"nope.foo"` on `{foo: fn}` reaches `fn`. */
  lemma SkippedSegmentRoute()
    ensures Resolve(Obj(map["foo" := Fn(2)]), "nope.foo") == Some(Fn(2))
  {
    SplitFsReaddir();
  }

  /** The wrapper's second call, `fs.fs.readdir`, still reaches the handler
      because the missing second `fs` is skipped; the third call does not. */
  lemma RepeatedPrefixRoutes()
    ensures Resolve(FsTarget, "fs.fs.readdir") == Some(Fn(1))
    ensures Resolve(FsTarget, "fs.fs.fs.readdir") == None
  {
    SplitRepeatedPrefix();
    MissingSegmentSkipped(Obj(map["readdir" := Fn(1)]), "fs", "readdir", []);
    MissingSegmentSkipped(Obj(map["readdir" := Fn(1)]), "fs", "fs", ["readdir"]);
  }

  // ---------------------------------------------------------------------
  // The two-endpoint scenario of the repository's example script.
  // ---------------------------------------------------------------------

  /** `{foo: <handler 1>, fs: {readdir: <handler 2>}}`. */
  const RemoteTarget: Target := Obj(map["foo" := Fn(1), "fs" := Obj(map["readdir" := Fn(2)])])

  lemma FooRoute()
    ensures Split("foo") == ["foo"]
    ensures Resolve(RemoteTarget, "foo") == Some(Fn(1))
    ensures Descend(RemoteTarget, Split("foo")).0 == RemoteTarget
    ensures PlainText("foo")
  {
    JoinSplit(["foo"]);
    var s := "foo";
    forall i | 0 <= i < |s|
      ensures Literal(s[i])
    {
    }
  }

  /** `local.invoke("foo", cb)` against a remote `foo` that calls back with
      `(null, "bar", 123)`: `cb` is called once with `"bar"` and `123` as its
      result arguments, and the local table is empty again. */
  lemma FooScenario(run: Invocation -> HandlerOutcome, cb: CallbackId)
    requires run(Invocation(1, RemoteTarget, [Continuation])) == CalledBack(JNull, [JStr("bar"), JNum(123)])
    ensures var local := Create(Other(false));
      var remote := Create(RemoteTarget);
      var sent := Invoke(local, Some("foo"), Func(cb), Undefined, false);
      && sent.thrown.None?
      && var served := Receive(remote, sent.ep.out[0], run);
      && |served.ep.out| == 1
      && var answered := Receive(sent.ep, served.ep.out[0], run);
      && answered.ep.pending == map[]
      && answered.ep.fired == [Firing(cb, Resolved([JStr("bar"), JNum(123)]))]
  {
    FooRoute();
    var local := Create(Other(false));
    CallbackInParamsPosition(local, Some("foo"), cb, Undefined, false);
    assert ServedCall(RemoteTarget, "foo", Val(JNull)) == Invocation(1, RemoteTarget, [Continuation]) by {
      assert AsData([]) + [Continuation] == [Continuation];
    }
    CallAndAnswer(local, Create(RemoteTarget), "foo", Val(JNull), cb, run, [JStr("bar"), JNum(123)]);
  }
}
