/** Laws of one endpoint: how ids are handed out and matched, how often a
    callback can fire, and what a request can be answered with. */
module Correlation {
  import opened Outcomes
  import opened Decimal
  import opened JsValue
  import opened JsonText
  import opened Frames
  import opened Router
  import opened Endpoint

  // ---------------------------------------------------------------------
  // Handing out ids.
  // ---------------------------------------------------------------------

  /** A call adds at most the new id to the table, which was free, and keeps
      every older entry. */
  lemma InvokeKeepsTable(ep: Endpoint, route: Option<string>, params: JsArg, callback: JsArg, encoded: bool)
    requires WellFormed(ep)
    ensures var s := Invoke(ep, route, params, callback, encoded);
      && WellFormed(s.ep)
      && s.ep.pending.Keys == ep.pending.Keys + (if s.ep.counter == ep.counter then {} else {s.ep.counter})
      && (s.ep.counter != ep.counter ==> s.ep.counter !in ep.pending)
      && (forall k | k in ep.pending :: s.ep.pending[k] == ep.pending[k])
  {
  }

  /** A call with a callback stores it under the next id, which was free, and
      writes a request frame carrying exactly that id. */
  lemma InvokeWithCallback(ep: Endpoint, route: string, params: JsArg, c: CallbackId)
    requires WellFormed(ep)
    requires !params.Func? && !BadParams(params)
    ensures var s := Invoke(ep, Some(route), params, Func(c), false);
      && s.thrown.None?
      && s.ep.counter == ep.counter + 1
      && ep.counter + 1 !in ep.pending
      && s.ep.pending == ep.pending[ep.counter + 1 := c]
      && s.ep.out == ep.out + [Request(Some(route), Some(ep.counter + 1), ArgValue(params), false).value + "\n"]
  {
  }

  /** The peer reads back the route, the id the callback is stored under, and the params. */
  lemma InvokeFrameDecodes(ep: Endpoint, route: string, params: JsArg, c: CallbackId)
    requires WellFormed(ep) && PlainText(route)
    requires !params.Func? && !BadParams(params)
    ensures var s := Invoke(ep, Some(route), params, Func(c), false);
      && |s.ep.out| == |ep.out| + 1
      && Decode(s.ep.out[|ep.out|]) == Some(RequestObject(route, Some(ep.counter + 1), ArgValue(params)))
      && s.ep.pending[ep.counter + 1] == c
  {
    InvokeWithCallback(ep, route, params, c);
    RequestRoundTrip(route, Some(ep.counter + 1), ArgValue(params));
  }

  /** Without a callback nothing is stored and the frame carries no id. */
  lemma InvokeWithoutCallback(ep: Endpoint, route: string, params: JsArg, callback: JsArg)
    requires !params.Func? && !callback.Func? && !BadParams(params)
    ensures var s := Invoke(ep, Some(route), params, callback, false);
      && s.thrown.None? && s.ep.counter == ep.counter && s.ep.pending == ep.pending
      && s.ep.out == ep.out + [Request(Some(route), None, ArgValue(params), false).value + "\n"]
  {
  }

  /** A function in the params position is the callback, params become
      `null`, and the encoded flag no longer matters because no params are
      written. */
  lemma CallbackInParamsPosition(ep: Endpoint, route: Option<string>, c: CallbackId, ignored: JsArg, encoded: bool)
    ensures Invoke(ep, route, Func(c), ignored, encoded) == Invoke(ep, route, Val(JNull), Func(c), false)
  {
  }

  /** A truthy non-array params value throws before anything is stored or written. */
  lemma InvokeRejectsParams(ep: Endpoint, route: Option<string>, params: JsArg, callback: JsArg, encoded: bool)
    requires !params.Func? && BadParams(params)
    ensures Invoke(ep, route, params, callback, encoded) == Step(ep, Some("params must be an array"))
  {
  }

  /** A missing route throws only after the callback was stored. */
  lemma InvokeWithoutRoute(ep: Endpoint, params: JsArg, c: CallbackId)
    requires !params.Func? && !BadParams(params)
    ensures var s := Invoke(ep, None, params, Func(c), false);
      && s.thrown == Some("no method given")
      && s.ep.out == ep.out
      && s.ep.pending == ep.pending[ep.counter + 1 := c]
  {
  }

  /** One call `invoke(route, params, callback, encoded)`. */
  datatype Call = Call(route: Option<string>, params: JsArg, callback: JsArg, encoded: bool)

  /** The callback a call stores: the function it ends up with as callback,
      unless its params are rejected first. */
  function StoredBy(c: Call): Option<CallbackId> {
    var cb := CallCallback(c.params, c.callback);
    if !BadParams(CallParams(c.params)) && cb.Func? then Some(cb.callback) else None
  }

  /** A call writes a frame when its params are accepted and it names a route. */
  predicate Writes(c: Call) {
    !BadParams(CallParams(c.params)) && c.route.Some?
  }

  /** The line a call writes while the counter stands at `counter`: it
      carries the next id exactly when the call stores a callback. */
  function CallLine(c: Call, counter: nat): string
    requires Writes(c)
  {
    Request(c.route, if StoredBy(c).Some? then Some(counter + 1) else None, ArgValue(CallParams(c.params)), c.encoded).value + "\n"
  }

  /** What one call does to the counter, the table and the log. */
  lemma InvokeStep(ep: Endpoint, c: Call)
    ensures var s := Invoke(ep, c.route, c.params, c.callback, c.encoded).ep;
      && s.target == ep.target && s.fired == ep.fired
      && s.counter == ep.counter + (if StoredBy(c).Some? then 1 else 0)
      && s.pending == (if StoredBy(c).Some? then ep.pending[ep.counter + 1 := StoredBy(c).value] else ep.pending)
      && s.out == ep.out + (if Writes(c) then [CallLine(c, ep.counter)] else [])
  {
  }

  /** Successive calls, whether they throw or not. */
  function InvokeAll(ep: Endpoint, calls: seq<Call>): Endpoint
    decreases |calls|
  {
    if |calls| == 0 then ep
    else InvokeAll(Invoke(ep, calls[0].route, calls[0].params, calls[0].callback, calls[0].encoded).ep, calls[1..])
  }

  /** The callbacks successive calls store, in order. */
  function StoredCallbacks(calls: seq<Call>): (cbs: seq<CallbackId>)
    ensures |cbs| <= |calls|
  {
    if |calls| == 0 then []
    else (if StoredBy(calls[0]).Some? then [StoredBy(calls[0]).value] else []) + StoredCallbacks(calls[1..])
  }

  /** When every call stores a callback, they are all stored, in order. */
  lemma {:induction false} AllStored(calls: seq<Call>)
    requires forall i | 0 <= i < |calls| :: StoredBy(calls[i]).Some?
    ensures |StoredCallbacks(calls)| == |calls|
    ensures forall i | 0 <= i < |calls| :: StoredCallbacks(calls)[i] == StoredBy(calls[i]).value
  {
    if |calls| > 0 {
      AllStored(calls[1..]);
      assert forall i | 1 <= i < |calls| :: calls[1..][i - 1] == calls[i];
    }
  }

  /** The callbacks of two runs of calls are those of the first, then those of the second. */
  lemma {:induction false} StoredAppend(a: seq<Call>, b: seq<Call>)
    ensures StoredCallbacks(a + b) == StoredCallbacks(a) + StoredCallbacks(b)
  {
    if |a| > 0 {
      assert (a + b)[0] == a[0] && (a + b)[1..] == a[1..] + b;
      StoredAppend(a[1..], b);
    } else {
      assert a + b == b;
    }
  }

  /** The entries that storing `cbs` one after the other adds: the first
      under `counter + 1`, the rest above it. */
  function Assigned(counter: nat, cbs: seq<CallbackId>): (m: map<nat, CallbackId>)
    decreases |cbs|
    ensures forall k :: k in m <==> counter < k <= counter + |cbs|
  {
    if |cbs| == 0 then map[] else Assigned(counter + 1, cbs[1..])[counter + 1 := cbs[0]]
  }

  /** The n-th callback sits under `counter + n`. */
  lemma {:induction false} AssignedValues(counter: nat, cbs: seq<CallbackId>)
    decreases |cbs|
    ensures forall k | counter < k <= counter + |cbs| :: Assigned(counter, cbs)[k] == cbs[k - counter - 1]
  {
    if |cbs| > 0 {
      AssignedValues(counter + 1, cbs[1..]);
      forall k | counter + 1 < k <= counter + |cbs|
        ensures Assigned(counter, cbs)[k] == cbs[k - counter - 1]
      {
        assert cbs[1..][k - (counter + 1) - 1] == cbs[k - counter - 1];
      }
    }
  }

  /** Storing the first callback under `counter + 1` and the rest above it is
      storing them all above `counter`. */
  lemma AssignedFirst(pending: map<nat, CallbackId>, counter: nat, cbs: seq<CallbackId>)
    requires |cbs| > 0
    ensures pending[counter + 1 := cbs[0]] + Assigned(counter + 1, cbs[1..]) == pending + Assigned(counter, cbs)
  {
    var rest := Assigned(counter + 1, cbs[1..]);
    assert counter + 1 !in rest;
    var a := pending[counter + 1 := cbs[0]] + rest;
    var b := pending + Assigned(counter, cbs);
    assert a.Keys == b.Keys;
    forall k | k in a
      ensures a[k] == b[k]
    {
    }
  }

  /** The step `InvokeAll` takes for its first call. */
  lemma InvokeAllFirst(ep: Endpoint, calls: seq<Call>) returns (next: Endpoint)
    requires WellFormed(ep) && |calls| > 0
    ensures InvokeAll(ep, calls) == InvokeAll(next, calls[1..])
    ensures WellFormed(next)
    ensures next.counter == ep.counter + (if StoredBy(calls[0]).Some? then 1 else 0)
    ensures next.pending == (if StoredBy(calls[0]).Some? then ep.pending[ep.counter + 1 := StoredBy(calls[0]).value] else ep.pending)
  {
    var c := calls[0];
    next := Invoke(ep, c.route, c.params, c.callback, c.encoded).ep;
    InvokeStep(ep, c);
  }

  /** Successive calls advance the counter once per stored callback and add
      exactly the closed-form entries to the table, keeping the older ones;
      calls without a callback, and calls that throw, leave both alone
      unless they stored a callback before throwing. */
  lemma {:induction false} SuccessiveTable(ep: Endpoint, calls: seq<Call>)
    requires WellFormed(ep)
    decreases |calls|
    ensures var r := InvokeAll(ep, calls);
      && WellFormed(r)
      && r.counter == ep.counter + |StoredCallbacks(calls)|
      && r.pending == ep.pending + Assigned(ep.counter, StoredCallbacks(calls))
  {
    if |calls| == 0 {
      assert ep.pending + Assigned(ep.counter, []) == ep.pending;
    } else {
      var c := calls[0];
      var next := InvokeAllFirst(ep, calls);
      SuccessiveTable(next, calls[1..]);
      var rest := StoredCallbacks(calls[1..]);
      if StoredBy(c).Some? {
        var cbs := [StoredBy(c).value] + rest;
        assert cbs[1..] == rest;
        assert StoredCallbacks(calls) == cbs;
        AssignedFirst(ep.pending, ep.counter, cbs);
        assert next.pending + Assigned(next.counter, rest) == ep.pending + Assigned(ep.counter, cbs);
      } else {
        assert StoredCallbacks(calls) == [] + rest == rest;
      }
    }
  }

  /** The lines successive calls write, the counter standing at `counter` before the first. */
  function CallLines(calls: seq<Call>, counter: nat): (lines: seq<string>)
    ensures |lines| <= |calls|
  {
    if |calls| == 0 then []
    else
      var first := if Writes(calls[0]) then [CallLine(calls[0], counter)] else [];
      first + CallLines(calls[1..], counter + (if StoredBy(calls[0]).Some? then 1 else 0))
  }

  /** The log after successive calls is the old log followed by their lines, in order. */
  lemma {:induction false} SuccessiveFrames(ep: Endpoint, calls: seq<Call>)
    decreases |calls|
    ensures InvokeAll(ep, calls).out == ep.out + CallLines(calls, ep.counter)
  {
    if |calls| > 0 {
      var c := calls[0];
      var next := Invoke(ep, c.route, c.params, c.callback, c.encoded).ep;
      InvokeStep(ep, c);
      SuccessiveFrames(next, calls[1..]);
      var first := if Writes(c) then [CallLine(c, ep.counter)] else [];
      assert ep.out + first + CallLines(calls[1..], next.counter) == ep.out + (first + CallLines(calls[1..], next.counter));
    }
  }

  /** The first call of a run followed by more calls. */
  lemma CallLinesHead(a: seq<Call>, b: seq<Call>, counter: nat) returns (first: seq<string>, step: nat)
    requires |a| > 0
    ensures step == (if StoredBy(a[0]).Some? then 1 else 0)
    ensures |StoredCallbacks(a)| == step + |StoredCallbacks(a[1..])|
    ensures CallLines(a + b, counter) == first + CallLines(a[1..] + b, counter + step)
    ensures CallLines(a, counter) == first + CallLines(a[1..], counter + step)
  {
    assert (a + b)[0] == a[0] && (a + b)[1..] == a[1..] + b;
    step := if StoredBy(a[0]).Some? then 1 else 0;
    first := if Writes(a[0]) then [CallLine(a[0], counter)] else [];
  }

  lemma LinesAssoc(a: seq<string>, b: seq<string>, c: seq<string>)
    ensures a + (b + c) == a + b + c
  {
  }

  /** The lines of two runs of calls: the second run's ids continue after
      the callbacks the first run stored. */
  lemma {:induction false} CallLinesAppend(a: seq<Call>, b: seq<Call>, counter: nat)
    decreases |a|
    ensures CallLines(a + b, counter) == CallLines(a, counter) + CallLines(b, counter + |StoredCallbacks(a)|)
  {
    if |a| > 0 {
      var first, step := CallLinesHead(a, b, counter);
      CallLinesAppend(a[1..], b, counter + step);
      LinesAssoc(first, CallLines(a[1..], counter + step), CallLines(b, counter + |StoredCallbacks(a)|));
    } else {
      assert a + b == b;
    }
  }

  /** The frame of the i-th call carries the id its callback is stored
      under: one more than the counter plus the callbacks stored before it. */
  lemma FrameIdMatchesTable(ep: Endpoint, calls: seq<Call>, i: nat)
    requires WellFormed(ep) && i < |calls| && Writes(calls[i]) && StoredBy(calls[i]).Some?
    ensures var before := StoredCallbacks(calls[..i]);
      var r := InvokeAll(ep, calls);
      var at := |ep.out| + |CallLines(calls[..i], ep.counter)|;
      && at < |r.out|
      && r.out[at] == CallLine(calls[i], ep.counter + |before|)
      && ep.counter + |before| + 1 in r.pending
      && r.pending[ep.counter + |before| + 1] == StoredBy(calls[i]).value
  {
    NthFrame(ep, calls, i);
    NthEntry(ep, calls, i);
  }

  /** The i-th call's frame follows the frames of the calls before it. */
  lemma NthFrame(ep: Endpoint, calls: seq<Call>, i: nat)
    requires i < |calls| && Writes(calls[i])
    ensures var r := InvokeAll(ep, calls);
      var at := |ep.out| + |CallLines(calls[..i], ep.counter)|;
      && at < |r.out|
      && r.out[at] == CallLine(calls[i], ep.counter + |StoredCallbacks(calls[..i])|)
  {
    var before, after := calls[..i], calls[i..];
    assert calls == before + after;
    assert after[0] == calls[i];
    SuccessiveFrames(ep, calls);
    CallLinesAppend(before, after, ep.counter);
  }

  /** The i-th call's callback sits under the id after those stored before it. */
  lemma NthEntry(ep: Endpoint, calls: seq<Call>, i: nat)
    requires WellFormed(ep) && i < |calls| && StoredBy(calls[i]).Some?
    ensures var k := ep.counter + |StoredCallbacks(calls[..i])| + 1;
      var r := InvokeAll(ep, calls);
      k in r.pending && r.pending[k] == StoredBy(calls[i]).value
  {
    var before, after := calls[..i], calls[i..];
    assert calls == before + after;
    assert after[0] == calls[i];
    SuccessiveTable(ep, calls);
    StoredAppend(before, after);
    var all := StoredCallbacks(calls);
    var n := |StoredCallbacks(before)|;
    assert StoredCallbacks(after) == [StoredBy(calls[i]).value] + StoredCallbacks(after[1..]);
    assert n < |all| && all[n] == StoredBy(calls[i]).value;
    AssignedValues(ep.counter, all);
  }

  /** From a fresh endpoint the ids are 1, 2, 3, ... in the order the
      callbacks were stored, and nothing else is stored. */
  lemma FreshIdsStartAtOne(ep: Endpoint, calls: seq<Call>)
    requires ep.counter == 0 && ep.pending == map[]
    ensures var r := InvokeAll(ep, calls);
      var cbs := StoredCallbacks(calls);
      && (forall k :: k in r.pending <==> 1 <= k <= |cbs|)
      && (forall k | 1 <= k <= |cbs| :: r.pending[k] == cbs[k - 1])
  {
    var cbs := StoredCallbacks(calls);
    SuccessiveTable(ep, calls);
    AssignedValues(0, cbs);
    assert map[] + Assigned(0, cbs) == Assigned(0, cbs);
  }

  // ---------------------------------------------------------------------
  // Matching answers to stored callbacks.
  // ---------------------------------------------------------------------

  /** A numeric id finds the callback stored under it, and only that one. */
  lemma NumericIdMatches(ep: Endpoint, k: nat)
    requires k >= 1
    ensures PendingId(ep, Some(JNum(k))) == if k in ep.pending then Some(k) else None
  {
    ParseNatIff(NatToString(k), k);
  }

  /** The table is keyed by `String(id)`: the string spelling of a pending id
      matches the same callback as the number. */
  lemma StringIdAliases(ep: Endpoint, k: nat)
    requires k >= 1
    ensures PendingId(ep, Some(JStr(NatToString(k)))) == PendingId(ep, Some(JNum(k)))
  {
    ParseNatIff(NatToString(k), k);
    NatToStringLeading(k);
  }

  /** An id matches a stored callback exactly when it is truthy and its
      string form is the decimal spelling of a pending key. */
  lemma PendingIdMeans(ep: Endpoint, id: Option<Json>, k: nat)
    ensures PendingId(ep, id) == Some(k) <==>
      (TruthyOpt(id) && k in ep.pending && ToJsString(id.value) == NatToString(k))
  {
    if TruthyOpt(id) {
      ParseNatIff(ToJsString(id.value), k);
    }
  }

  /** A missing, falsy or unknown id changes nothing. */
  lemma UnmatchedAnswerIgnored(ep: Endpoint, msg: seq<(string, Json)>)
    requires forall k | k in ep.pending :: !(TruthyOpt(Field(msg, "id")) && ToJsString(Field(msg, "id").value) == NatToString(k))
    ensures HasField(msg, "result") ==> HandleResponse(ep, msg) == ep
    ensures HasField(msg, "error") ==> HandleError(ep, msg) == Step(ep, None)
  {
    if PendingId(ep, Field(msg, "id")).Some? {
      PendingIdMeans(ep, Field(msg, "id"), PendingId(ep, Field(msg, "id")).value);
    }
  }

  /** Id 0 is never matched: it is falsy. */
  lemma ZeroIdIgnored(ep: Endpoint, msg: seq<(string, Json)>)
    requires Field(msg, "id") == Some(JNum(0))
    ensures HasField(msg, "result") ==> HandleResponse(ep, msg) == ep
    ensures HasField(msg, "error") ==> HandleError(ep, msg) == Step(ep, None)
  {
  }

  /** Once an answer has fired its callback, the same id matches nothing. */
  lemma AnsweredIdGone(ep: Endpoint, msg: seq<(string, Json)>, id: Option<Json>)
    requires HasField(msg, "result")
    requires PendingId(ep, Field(msg, "id")).Some?
    requires id.Some? && ToJsString(id.value) == ToJsString(Field(msg, "id").value)
    ensures PendingId(HandleResponse(ep, msg), id).None?
  {
    var k := PendingId(ep, Field(msg, "id")).value;
    PendingIdMeans(ep, Field(msg, "id"), k);
    if PendingId(HandleResponse(ep, msg), id).Some? {
      var j := PendingId(HandleResponse(ep, msg), id).value;
      PendingIdMeans(HandleResponse(ep, msg), id, j);
      NatToStringInjective(j, k);
    }
  }

  /** A callback fires at most once: delivering the same response again
      changes nothing. */
  lemma ResponseAtMostOnce(ep: Endpoint, res: seq<(string, Json)>)
    requires HasField(res, "result")
    ensures var once := HandleResponse(ep, res);
      HandleResponse(once, res) == once
  {
    if PendingId(ep, Field(res, "id")).Some? {
      AnsweredIdGone(ep, res, Field(res, "id"));
    }
  }

  /** Nor does an error for an id whose response already arrived. */
  lemma ErrorAfterResponseIgnored(ep: Endpoint, res: seq<(string, Json)>, err: seq<(string, Json)>)
    requires HasField(res, "result") && HasField(err, "error")
    requires PendingId(ep, Field(res, "id")).Some?
    requires Field(err, "id") == Field(res, "id")
    ensures HandleError(HandleResponse(ep, res), err) == Step(HandleResponse(ep, res), None)
  {
    AnsweredIdGone(ep, res, Field(err, "id"));
  }

  /** Once an error has fired its callback, the same id matches nothing. */
  lemma ErrorIdGone(ep: Endpoint, err: seq<(string, Json)>, id: Option<Json>)
    requires HasField(err, "error")
    requires PendingId(ep, Field(err, "id")).Some? && HandleError(ep, err).thrown.None?
    requires id.Some? && ToJsString(id.value) == ToJsString(Field(err, "id").value)
    ensures PendingId(HandleError(ep, err).ep, id).None?
  {
    var k := PendingId(ep, Field(err, "id")).value;
    PendingIdMeans(ep, Field(err, "id"), k);
    var after := HandleError(ep, err).ep;
    if PendingId(after, id).Some? {
      var j := PendingId(after, id).value;
      PendingIdMeans(after, id, j);
      NatToStringInjective(j, k);
    }
  }

  /** An error delivered twice has the effect of delivering it once. */
  lemma ErrorAtMostOnce(ep: Endpoint, err: seq<(string, Json)>)
    requires HasField(err, "error")
    ensures var once := HandleError(ep, err);
      once.thrown.None? ==> HandleError(once.ep, err) == Step(once.ep, None)
  {
    if PendingId(ep, Field(err, "id")).Some? && HandleError(ep, err).thrown.None? {
      ErrorIdGone(ep, err, Field(err, "id"));
    }
  }

  /** A response for an id whose error already arrived is ignored. */
  lemma ResponseAfterErrorIgnored(ep: Endpoint, err: seq<(string, Json)>, res: seq<(string, Json)>)
    requires HasField(err, "error") && HasField(res, "result")
    requires PendingId(ep, Field(err, "id")).Some?
    requires Field(res, "id") == Field(err, "id")
    ensures var once := HandleError(ep, err);
      once.thrown.None? ==> HandleResponse(once.ep, res) == once.ep
  {
    if HandleError(ep, err).thrown.None? {
      ErrorIdGone(ep, err, Field(res, "id"));
    }
  }

  /** An error instance is built from the remote message and code; its code
      and data are the remote ones. */
  lemma RejectionShape(ep: Endpoint, err: seq<(string, Json)>, k: nat, code: int, message: string, data: Option<Json>)
    requires Field(err, "id") == Some(JNum(k)) && k >= 1 && k in ep.pending
    requires Field(err, "error") == Some(ErrorObject(0, code, message, data).fields[2].1)
    ensures HandleError(ep, err) == Step(ep.(pending := ep.pending - {k},
      fired := ep.fired + [Firing(ep.pending[k], Rejected(message + " (" + IntToString(code) + ")",
        Some(JNum(code)), if NotNull(data) then data else None))]), None)
  {
    NumericIdMatches(ep, k);
    ErrorBodyFields(code, message, data);
  }

  // ---------------------------------------------------------------------
  // Answering requests.
  // ---------------------------------------------------------------------

  /** The internal-error message needs no escaping. */
  lemma InternalErrorPlain()
    ensures PlainText("Internal error")
  {
    var s := "Internal error";
    forall i | 0 <= i < |s|
      ensures Literal(s[i])
    {
    }
  }

  /** The line written for a request with a truthy integer id, if any. */
  lemma AnswerLine(ep: Endpoint, req: seq<(string, Json)>, run: Invocation -> HandlerOutcome, n: int)
    requires TargetTruthy(ep.target)
    requires Field(req, "id") == Some(JNum(n)) && n != 0
    ensures var s := HandleRequest(ep, req, run);
      var c := EvalRoute(ep.target, Field(req, "method"), Field(req, "params"), run);
      if c.Unanswered? then s == Step(ep, None)
      else s == Step(ep.(out := ep.out + [ReplyText(n, c) + "\n"]), None)
  {
  }

  /** A handler that completes gets exactly one response frame, carrying the
      completion values as its result. */
  lemma CompletedRequestAnswered(ep: Endpoint, req: seq<(string, Json)>, run: Invocation -> HandlerOutcome, n: int)
    requires TargetTruthy(ep.target)
    requires Field(req, "id") == Some(JNum(n)) && n != 0
    requires EvalRoute(ep.target, Field(req, "method"), Field(req, "params"), run).Replied?
    ensures var s := HandleRequest(ep, req, run);
      var c := EvalRoute(ep.target, Field(req, "method"), Field(req, "params"), run);
      && s.thrown.None? && |s.ep.out| == |ep.out| + 1
      && Decode(s.ep.out[|ep.out|]) == Some(ResponseObject(n, JArr(c.values)))
  {
    AnswerLine(ep, req, run, n);
    var c := EvalRoute(ep.target, Field(req, "method"), Field(req, "params"), run);
    ResponseRoundTrip(n, JArr(c.values));
  }

  /** Whatever went wrong, the one frame written is an internal error
      without data: method-not-found never reaches the wire. */
  lemma FailedRequestAnswered(ep: Endpoint, req: seq<(string, Json)>, run: Invocation -> HandlerOutcome, n: int)
    requires TargetTruthy(ep.target)
    requires Field(req, "id") == Some(JNum(n)) && n != 0
    requires EvalRoute(ep.target, Field(req, "method"), Field(req, "params"), run).Failed?
    ensures var s := HandleRequest(ep, req, run);
      && s.thrown.None? && |s.ep.out| == |ep.out| + 1
      && Decode(s.ep.out[|ep.out|]) == Some(ErrorObject(n, InternalError, "Internal error", None))
  {
    AnswerLine(ep, req, run, n);
    InternalErrorPlain();
    ErrorRoundTrip(n, InternalError, "Internal error", Some(JNull));
    assert ErrorObject(n, InternalError, "Internal error", Some(JNull)) == ErrorObject(n, InternalError, "Internal error", None);
  }

  /** The error frame of a failed request carries code -32603 and no data member. */
  lemma FailureFrameFields(n: int)
    ensures var error := Field(ErrorObject(n, InternalError, "Internal error", None).fields, "error").value;
      && Prop(error, "code") == Some(JNum(InternalError))
      && Prop(error, "code") != Some(JNum(MethodNotFound))
      && Prop(error, "message") == Some(JStr("Internal error"))
      && Prop(error, "data") == None
  {
    InternalErrorPlain();
    ErrorRoundTrip(n, InternalError, "Internal error", None);
  }

  /** A request with a truthy id that is not a number cannot be answered:
      the frame builder throws and nothing is written. */
  lemma NonIntegerIdThrows(ep: Endpoint, req: seq<(string, Json)>, run: Invocation -> HandlerOutcome)
    requires TargetTruthy(ep.target)
    requires TruthyOpt(Field(req, "id")) && !Field(req, "id").value.JNum?
    requires !EvalRoute(ep.target, Field(req, "method"), Field(req, "params"), run).Unanswered?
    ensures HandleRequest(ep, req, run) == Step(ep, Some("id must be an integer"))
  {
  }

  // ---------------------------------------------------------------------
  // The classifier on the frames the builders write.
  // ---------------------------------------------------------------------

  lemma RequestFrameKind(methodName: string, id: Option<int>, params: Option<Json>)
    requires PlainText(methodName)
    ensures var d := Decode(Request(Some(methodName), id, params, false).value + "\n");
      d.Some? && Classify(d.value) == RequestKind
  {
    RequestRoundTrip(methodName, id, params);
  }

  lemma ResponseFrameKind(id: int, result: Json)
    ensures var d := Decode(Response(Some(id), Some(result), false).value + "\n");
      d.Some? && Classify(d.value) == ResponseKind
  {
    ResponseRoundTrip(id, result);
  }

  lemma ErrorFrameKind(id: int, code: int, message: string, data: Option<Json>)
    requires PlainText(message)
    ensures var d := Decode(Error(Some(id), Some(code), Some(message), data, false).value + "\n");
      d.Some? && Classify(d.value) == ErrorKind
  {
    ErrorRoundTrip(id, code, message, data);
  }

  /** A message carrying `method` is a request whatever else it carries. */
  lemma MethodTakesPriority(fields: seq<(string, Json)>)
    requires HasField(fields, "method")
    ensures Classify(JObj(fields)) == RequestKind
  {
  }
}
