/** `evalRoute`: resolving a dotted route against the exposed object tree and
    calling the handler found there with a trailing completion callback. */
module Router {
  import opened Outcomes
  import opened JsValue
  import opened Frames

  type HandlerId = nat

  /** The exposed object tree. Only objects carry members the router can reach;
      `Other` is any non-function, non-object value, with its truthiness. */
  datatype Target = Obj(members: map<string, Target>) | Fn(handler: HandlerId) | Other(truthy: bool)

  predicate TargetTruthy(t: Target) {
    match t
    case Other(b) => b
    case _ => true
  }

  /** `t[key]`, `None` being `undefined`. */
  function Member(t: Target, key: string): (r: Option<Target>)
    ensures r.Some? <==> t.Obj? && key in t.members
  {
    match t
    case Obj(m) => if key in m then Some(m[key]) else None
    case _ => None
  }

  /** The member exists and is truthy: the test `if (_target[part])`. */
  predicate Found(m: Option<Target>) {
    m.Some? && TargetTruthy(m.value)
  }

  predicate Dotless(s: string) {
    forall i | 0 <= i < |s| :: s[i] != '.'
  }

  /** `s.split(".")`: always at least one part; empty parts are kept. */
  function Split(s: string): (parts: seq<string>)
    ensures |parts| >= 1
    ensures forall i | 0 <= i < |parts| :: Dotless(parts[i])
  {
    if |s| == 0 then [""]
    else if s[0] == '.' then [""] + Split(s[1..])
    else
      var rest := Split(s[1..]);
      [[s[0]] + rest[0]] + rest[1..]
  }

  /** `parts.join(".")`. */
  function Join(parts: seq<string>): string
    requires |parts| >= 1
  {
    if |parts| == 1 then parts[0] else parts[0] + "." + Join(parts[1..])
  }

  /** Splitting then joining gives back the route. */
  lemma {:induction false} SplitJoin(s: string)
    ensures Join(Split(s)) == s
  {
    if |s| > 0 {
      SplitJoin(s[1..]);
      var rest := Split(s[1..]);
      if s[0] == '.' {
        assert Split(s)[1..] == rest;
        assert s == "." + s[1..];
      } else {
        var parts := Split(s);
        assert parts[0] == [s[0]] + rest[0];
        if |rest| > 1 {
          assert parts[1..] == rest[1..];
        }
        assert s == [s[0]] + s[1..];
      }
    }
  }

  lemma {:induction false} SplitPrefix(p: string, s: string)
    requires Dotless(p)
    ensures Split(p + s) == [p + Split(s)[0]] + Split(s)[1..]
  {
    if |p| > 0 {
      assert (p + s)[1..] == p[1..] + s;
      assert (p + s)[0] == p[0] && p[0] != '.';
      SplitPrefix(p[1..], s);
      var rest := Split(p[1..] + s);
      assert Split(p + s) == [[p[0]] + rest[0]] + rest[1..];
      assert [p[0]] + (p[1..] + Split(s)[0]) == p + Split(s)[0];
    } else {
      assert p + s == s;
      assert p + Split(s)[0] == Split(s)[0];
      assert Split(s) == [Split(s)[0]] + Split(s)[1..];
    }
  }

  /** Joining dot-free parts then splitting gives back the parts. */
  lemma {:induction false} JoinSplit(parts: seq<string>)
    requires |parts| >= 1
    requires forall i | 0 <= i < |parts| :: Dotless(parts[i])
    ensures Split(Join(parts)) == parts
  {
    if |parts| == 1 {
      SplitPrefix(parts[0], "");
      assert parts[0] + "" == parts[0];
      assert Split("") == [""];
      assert parts[0] + Split("")[0] == parts[0];
    } else {
      JoinSplit(parts[1..]);
      var tail := "." + Join(parts[1..]);
      assert Join(parts) == parts[0] + tail by {
        assert parts[0] + "." + Join(parts[1..]) == parts[0] + ("." + Join(parts[1..]));
      }
      SplitPrefix(parts[0], tail);
      assert tail[1..] == Join(parts[1..]);
      assert Split(tail) == [""] + Split(Join(parts[1..]));
      assert parts[0] + "" == parts[0];
      assert parts == [parts[0]] + parts[1..];
    }
  }

  /** The resolution loop: while more than one part remains, shift one off and
      descend into it; stop at the first missing or falsy member, which has
      already been shifted off. Yields the object reached and the key then
      looked up on it (`parts[0]` of what is left). */
  function Descend(t: Target, parts: seq<string>): (r: (Target, string))
    requires |parts| >= 1
    ensures r.1 in parts
  {
    if |parts| == 1 then (t, parts[0])
    else
      var next := Member(t, parts[0]);
      if Found(next) then
        var r := Descend(next.value, parts[1..]);
        assert r.1 in parts[1..];
        r
      else (t, parts[1])
  }

  /** `_target[parts[0]]` after the loop. */
  function Resolve(t: Target, route: string): Option<Target> {
    var reached := Descend(t, Split(route));
    Member(reached.0, reached.1)
  }

  /** Reference lookup: follow every segment, failing on any missing one. */
  function Lookup(t: Target, parts: seq<string>): Option<Target> {
    if |parts| == 0 then Some(t)
    else
      match Member(t, parts[0])
      case None => None
      case Some(child) => Lookup(child, parts[1..])
  }

  /** When every segment of the route exists, the loop finds what a full path
      lookup finds. */
  lemma {:induction false} DescendAgreesWithLookup(t: Target, parts: seq<string>)
    requires |parts| >= 1
    requires Lookup(t, parts).Some?
    ensures Member(Descend(t, parts).0, Descend(t, parts).1) == Lookup(t, parts)
  {
    if |parts| > 1 {
      var child := Member(t, parts[0]);
      assert child.Some?;
      var rest := parts[1..];
      assert Lookup(child.value, rest).Some?;
      assert Member(child.value, rest[0]).Some?;
      DescendAgreesWithLookup(child.value, rest);
    } else {
      assert Lookup(t, parts) == (match Member(t, parts[0]) case None => None case Some(c) => Lookup(c, parts[1..]));
    }
  }

  /** A missing or falsy segment is consumed and the lookup moves to the
      segment after it, on the object already reached. */
  lemma MissingSegmentSkipped(t: Target, missing: string, next: string, rest: seq<string>)
    requires !Found(Member(t, missing))
    ensures Descend(t, [missing, next] + rest) == (t, next)
  {
  }

  // ---------------------------------------------------------------------
  // Calling the handler.
  // ---------------------------------------------------------------------

  /** An argument passed to a handler: a request parameter or the completion callback. */
  datatype Arg = Data(value: Json) | Continuation

  /** The call `fn.apply(_target, params)`. */
  datatype Invocation = Invocation(handler: HandlerId, receiver: Target, args: seq<Arg>)

  /** What a handler does synchronously when called: calls the completion
      callback with an error value and result values, throws, or returns
      without calling back. */
  datatype HandlerOutcome = CalledBack(err: Json, values: seq<Json>) | Threw | Returned

  /** What escapes from the body of `evalRoute`. */
  datatype Raised =
    | RpcError(code: int, message: string, data: Json)
    | TypeError
    | HandlerException
    | CallbackError(err: Json)

  /** The body of `evalRoute` before its `catch`: values the callback was
      completed with, no completion at all, or something raised. */
  datatype Flow = Completed(values: seq<Json>) | NoCompletion | Raises(raised: Raised)

  function AsData(items: seq<Json>): (args: seq<Arg>)
    ensures |args| == |items|
    ensures forall i | 0 <= i < |items| :: args[i] == Data(items[i])
  {
    if |items| == 0 then [] else [Data(items[0])] + AsData(items[1..])
  }

  /** `params = params || []; params.push(callback)`; `None` when `params` is a
      truthy non-array and `push` is not a function. */
  function Arguments(params: Option<Json>): Option<seq<Arg>> {
    if !TruthyOpt(params) then Some([Continuation])
    else if params.value.JArr? then Some(AsData(params.value.items) + [Continuation])
    else None
  }

  /** The body of `evalRoute`'s `try`. */
  function RouteBody(target: Target, route: Option<Json>, params: Option<Json>, run: Invocation -> HandlerOutcome): Flow {
    if !(route.Some? && route.value.JStr?) then Raises(TypeError)
    else
      var reached := Descend(target, Split(route.value.s));
      var fn := Member(reached.0, reached.1);
      if !(fn.Some? && fn.value.Fn?) then Raises(RpcError(MethodNotFound, ErrorText(MethodNotFound).value, JNull))
      else
        match Arguments(params)
        case None => Raises(TypeError)
        case Some(args) =>
          Outcome(run(Invocation(fn.value.handler, reached.0, args)))
  }

  /** How a request ends: with result values, with no completion, or with the error triple thrown to `handleRequest`. */
  datatype Completion = Replied(values: seq<Json>) | Unanswered | Failed(code: int, message: string, data: Json)

  /** `evalRoute`: its `catch` replaces whatever was raised, including the
      method-not-found triple, with the internal-error triple. */
  function EvalRoute(target: Target, route: Option<Json>, params: Option<Json>, run: Invocation -> HandlerOutcome): (c: Completion)
    ensures c.Failed? <==> RouteBody(target, route, params, run).Raises?
    ensures c.Failed? ==>
      (c.code == InternalError && c.code != MethodNotFound && c.message == "Internal error" && c.data == JNull)
    ensures c.Replied? <==> RouteBody(target, route, params, run).Completed?
  {
    match RouteBody(target, route, params, run)
    case Raises(_) => Failed(InternalError, ErrorText(InternalError).value, JNull)
    case NoCompletion => Unanswered
    case Completed(values) => Replied(values)
  }

  /** A handler reached by the route is called exactly with the request's
      params (or none) followed by the completion callback, with the object
      it was found on as receiver. */
  lemma HandlerCallShape(target: Target, route: string, params: Option<Json>, run: Invocation -> HandlerOutcome)
    requires Resolve(target, route).Some? && Resolve(target, route).value.Fn?
    requires !TruthyOpt(params) || params.value.JArr?
    ensures var items := if TruthyOpt(params) then params.value.items else [];
      var reached := Descend(target, Split(route));
      RouteBody(target, Some(JStr(route)), params, run) == Outcome(run(Invocation(
        Resolve(target, route).value.handler, reached.0, AsData(items) + [Continuation])))
  {
    if !TruthyOpt(params) {
      assert AsData([]) + [Continuation] == [Continuation];
    }
  }

  /** The flow that follows from what the handler does. */
  function Outcome(h: HandlerOutcome): Flow {
    match h
    case Threw => Raises(HandlerException)
    case Returned => NoCompletion
    case CalledBack(err, values) => if Truthy(err) then Raises(CallbackError(err)) else Completed(values)
  }

  /** A route that reaches no function fails, and the caller sees the
      internal-error code, not method-not-found. */
  lemma NotAFunctionIsInternalError(target: Target, route: string, params: Option<Json>, run: Invocation -> HandlerOutcome)
    requires !(Resolve(target, route).Some? && Resolve(target, route).value.Fn?)
    ensures RouteBody(target, Some(JStr(route)), params, run).Raises?
    ensures RouteBody(target, Some(JStr(route)), params, run).raised.RpcError?
    ensures RouteBody(target, Some(JStr(route)), params, run).raised.code == MethodNotFound
    ensures EvalRoute(target, Some(JStr(route)), params, run) == Failed(InternalError, "Internal error", JNull)
  {
  }
}
