/** One endpoint made by `rpc(target)`: the correlation table of outgoing
    calls (`invoke`, `handleResponse`, `handleError`), the request handler,
    and the classifier every inbound message goes through. */
module Endpoint {
  import opened Outcomes
  import opened Decimal
  import opened JsValue
  import opened JsonText
  import opened Frames
  import opened Router

  /** Identity of a callback function handed to `invoke`. */
  type CallbackId = nat

  /** What a stored callback is called with: the result values, or an error
      instance with its message, `code` and `data`. */
  datatype Reply = Resolved(values: seq<Json>) | Rejected(message: string, code: Option<Json>, data: Option<Json>)

  datatype Firing = Firing(callback: CallbackId, reply: Reply)

  /** The closure state of one endpoint: the exposed target, the id counter,
      the table of callbacks awaiting an answer, the lines emitted as `"data"`
      so far, and the callbacks called so far, in order. */
  datatype Endpoint = Endpoint(target: Target, counter: nat, pending: map<nat, CallbackId>, out: seq<string>, fired: seq<Firing>)

  /** `rpc(target)`; `rpc()` is `Create(Other(false))`. */
  function Create(target: Target): Endpoint {
    Endpoint(target, 0, map[], [], [])
  }

  /** Every stored callback sits under an id already handed out. */
  predicate WellFormed(ep: Endpoint) {
    forall k | k in ep.pending :: 1 <= k <= ep.counter
  }

  /** The endpoint after an operation, and the message of what it threw, if anything. */
  datatype Step = Step(ep: Endpoint, thrown: Option<string>)

  /** An argument of `invoke`: `undefined`, a JSON value, or a function. */
  datatype JsArg = Undefined | Val(v: Json) | Func(callback: CallbackId)

  predicate ArgTruthy(a: JsArg) {
    match a
    case Undefined => false
    case Val(v) => Truthy(v)
    case Func(_) => true
  }

  function ArgValue(a: JsArg): Option<Json> {
    match a
    case Val(v) => Some(v)
    case _ => None
  }

  /** `checkParam("params", params || undefined, false, "array")` throws. */
  predicate BadParams(params: JsArg) {
    ArgTruthy(params) && !(params.Val? && params.v.JArr?)
  }

  /** The params `invoke` goes on with: `null` when a function was passed in their place. */
  function CallParams(params: JsArg): JsArg {
    if params.Func? then Val(JNull) else params
  }

  /** The callback `invoke` goes on with: a function passed as params, or else the callback argument. */
  function CallCallback(params: JsArg, callback: JsArg): JsArg {
    if params.Func? then params else callback
  }

  /** `invoke(route, params, callback, encoded)`. A function in the params
      position becomes the callback and params become `null`; `encoded` is
      left as passed. */
  function Invoke(ep: Endpoint, route: Option<string>, params: JsArg, callback: JsArg, encoded: bool): (s: Step)
    ensures s.ep.target == ep.target && s.ep.fired == ep.fired
    ensures s.thrown.Some? ==> s.ep.out == ep.out
    ensures s.thrown.None? ==> |s.ep.out| == |ep.out| + 1 && s.ep.out[..|ep.out|] == ep.out
    ensures s.ep.counter == ep.counter || s.ep.counter == ep.counter + 1
  {
    var p := CallParams(params);
    var cb := CallCallback(params, callback);
    if BadParams(p) then Step(ep, Some("params must be an array"))
    else
      var counter := if cb.Func? then ep.counter + 1 else ep.counter;
      var pending := if cb.Func? then ep.pending[counter := cb.callback] else ep.pending;
      var id := if cb.Func? then Some(counter as int) else None;
      var stored := ep.(counter := counter, pending := pending);
      match Request(route, id, ArgValue(p), encoded)
      case Fail(reason) => Step(stored, Some(reason))
      case Ok(text) => Step(stored.(out := ep.out + [text + "\n"]), None)
  }

  /** The id under which the table holds the callback for an inbound `id`
      member: `callbacks[res.id]` after the truthiness test, the key being
      `String(res.id)`. */
  function PendingId(ep: Endpoint, id: Option<Json>): (r: Option<nat>)
    ensures r.Some? ==> TruthyOpt(id) && r.value in ep.pending
  {
    if !TruthyOpt(id) then None
    else
      match ParseNat(ToJsString(id.value))
      case None => None
      case Some(k) => if k in ep.pending then Some(k) else None
  }

  /** `[null].concat(res.result)` without its leading `null`: an array result
      is spread into the callback's arguments. */
  function Spread(result: Json): seq<Json> {
    if result.JArr? then result.items else [result]
  }

  /** `handleResponse(res)`: calls and then forgets the callback stored for `res.id`. */
  function HandleResponse(ep: Endpoint, res: seq<(string, Json)>): (r: Endpoint)
    requires HasField(res, "result")
    ensures r.target == ep.target && r.counter == ep.counter && r.out == ep.out
    ensures PendingId(ep, Field(res, "id")).None? ==> r == ep
    ensures PendingId(ep, Field(res, "id")).Some? ==>
      var k := PendingId(ep, Field(res, "id")).value;
      r.pending == ep.pending - {k}
      && r.fired == ep.fired + [Firing(ep.pending[k], Resolved(Spread(Field(res, "result").value)))]
  {
    match PendingId(ep, Field(res, "id"))
    case None => ep
    case Some(k) =>
      ep.(pending := ep.pending - {k},
          fired := ep.fired + [Firing(ep.pending[k], Resolved(Spread(Field(res, "result").value)))])
  }

  /** The message of the error instance: `util.format("%s (%s)", message, code)`. */
  function ErrorMessage(message: Option<Json>, code: Option<Json>): string {
    Display(message) + " (" + Display(code) + ")"
  }

  /** `handleError(err)`: calls and then forgets the callback stored for
      `err.id` with an error instance; an `error` member that is `null`
      makes the property read throw. */
  function HandleError(ep: Endpoint, err: seq<(string, Json)>): (s: Step)
    requires HasField(err, "error")
    ensures s.ep.target == ep.target && s.ep.counter == ep.counter && s.ep.out == ep.out
    ensures PendingId(ep, Field(err, "id")).None? ==> s == Step(ep, None)
    ensures PendingId(ep, Field(err, "id")).Some? ==>
      var k := PendingId(ep, Field(err, "id")).value;
      var e := Field(err, "error").value;
      if e == JNull then s.ep == ep && s.thrown.Some?
      else (s.thrown.None? && s.ep.pending == ep.pending - {k}
        && s.ep.fired == ep.fired + [Firing(ep.pending[k],
             Rejected(ErrorMessage(Prop(e, "message"), Prop(e, "code")), Prop(e, "code"), Prop(e, "data")))])
  {
    match PendingId(ep, Field(err, "id"))
    case None => Step(ep, None)
    case Some(k) =>
      var e := Field(err, "error").value;
      if e == JNull then Step(ep, Some("TypeError: Cannot read properties of null"))
      else
        var reply := Rejected(ErrorMessage(Prop(e, "message"), Prop(e, "code")), Prop(e, "code"), Prop(e, "data"));
        Step(ep.(pending := ep.pending - {k}, fired := ep.fired + [Firing(ep.pending[k], reply)]), None)
  }

  /** The frame answering request `id` for a completion that answers. */
  function ReplyText(id: int, c: Completion): string
    requires !c.Unanswered?
  {
    match c
    case Replied(values) => Response(Some(id), Some(JArr(values)), false).value
    case Failed(code, message, data) => Error(Some(id), Some(code), Some(message), Some(data), false).value
  }

  /** `handleRequest(req)`: with a target, routes the request and answers it
      when it carries a truthy id. A truthy id that is not an integer makes
      both frame builders throw, and the second throw escapes. */
  function HandleRequest(ep: Endpoint, req: seq<(string, Json)>, run: Invocation -> HandlerOutcome): (s: Step)
    ensures s.ep.target == ep.target && s.ep.counter == ep.counter
    ensures s.ep.pending == ep.pending && s.ep.fired == ep.fired
    ensures s.ep.out == ep.out || (s.thrown.None? && |s.ep.out| == |ep.out| + 1 && s.ep.out[..|ep.out|] == ep.out)
    ensures !TargetTruthy(ep.target) || !TruthyOpt(Field(req, "id")) ==> s == Step(ep, None)
  {
    if !TargetTruthy(ep.target) then Step(ep, None)
    else
      var c := EvalRoute(ep.target, Field(req, "method"), Field(req, "params"), run);
      var id := Field(req, "id");
      if c.Unanswered? || !TruthyOpt(id) then Step(ep, None)
      else if !id.value.JNum? then Step(ep, Some("id must be an integer"))
      else Step(ep.(out := ep.out + [ReplyText(id.value.n, c) + "\n"]), None)
  }

  /** Which handler an inbound message goes to. */
  datatype Kind = RequestKind | ResponseKind | ErrorKind | Ignored | NotAnObject

  /** The `in` tests of the stream's write function, in their order:
      `method` before `result` before `error`; arrays have none of these
      keys, and `in` on a primitive throws. */
  function Classify(data: Json): (k: Kind)
    ensures k == RequestKind <==> data.JObj? && HasField(data.fields, "method")
    ensures k == ResponseKind <==> data.JObj? && !HasField(data.fields, "method") && HasField(data.fields, "result")
    ensures k == ErrorKind <==>
      (data.JObj? && !HasField(data.fields, "method") && !HasField(data.fields, "result") && HasField(data.fields, "error"))
    ensures k == NotAnObject <==> !data.JObj? && !data.JArr?
  {
    match data
    case JObj(fields) =>
      if HasField(fields, "method") then RequestKind
      else if HasField(fields, "result") then ResponseKind
      else if HasField(fields, "error") then ErrorKind
      else Ignored
    case JArr(_) => Ignored
    case _ => NotAnObject
  }

  /** One write to the stream: parse the text, then dispatch by key. */
  function Receive(ep: Endpoint, text: string, run: Invocation -> HandlerOutcome): (s: Step)
    ensures s.ep.target == ep.target && s.ep.counter == ep.counter
    ensures s.ep.pending.Keys <= ep.pending.Keys
    ensures WellFormed(ep) ==> WellFormed(s.ep)
    ensures ep.fired <= s.ep.fired && |s.ep.fired| <= |ep.fired| + 1
    ensures Decode(text).None? ==> s.ep == ep && s.thrown.Some?
  {
    match Decode(text)
    case None => Step(ep, Some("SyntaxError: Unexpected token in JSON"))
    case Some(data) =>
      match Classify(data)
      case NotAnObject => Step(ep, Some("TypeError: Cannot use 'in' operator"))
      case Ignored => Step(ep, None)
      case RequestKind => HandleRequest(ep, data.fields, run)
      case ResponseKind => Step(HandleResponse(ep, data.fields), None)
      case ErrorKind => HandleError(ep, data.fields)
  }
}
