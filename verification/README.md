# node-json-rpc endpoint, modelled in Dafny

This project models `lib/json-rpc.js`, a small JSON-RPC 2.0 endpoint for
Node streams. One `rpc(target)` call builds an endpoint with four parts:

- **Frame builders** (`specs.request`, `specs.response`, `specs.error`, with
  `checkParam`). They write the text of a request, a response or an error
  object.
- **Correlation table**. This is the `counter` and `callbacks` closure state.
  `invoke` hands out ids and stores callbacks. `handleResponse` and
  `handleError` look a callback up by the `id` of an answer, call it, and
  delete it.
- **Router and request handler** (`evalRoute`, `handleRequest`). They resolve
  a dotted method name against the exposed object tree and call the handler
  found there. Its arguments are the params followed by a completion callback.
  Only requests with a truthy id are answered.
- **Inbound classifier and `wrap`**. The classifier is the stream's write
  function: it parses the text, then dispatches on the `method`, `result` or
  `error` key. `wrap` builds an object whose methods forward to `invoke`.

The model is functional. Each entry point is a pure step over an immutable
`Endpoint` record. Outbound traffic is an appended log of lines. Two
endpoints are connected by handing a line from one log to the other's
`Receive`.

`JSON.stringify` and `JSON.parse` are modelled concretely for JSON with
integer numbers (`JsonText.Encode`, `JsonText.Decode`), and their round trip
is proved (`JsonRoundTrip.DecodeEncode`). `Encode` writes an object's members
in the order of its member list; for the frame objects this is the order the
builders write them in. `Decode` rejects the few texts whose strings contain a
lone surrogate escape, which `JSON.parse` accepts (see "Left out"). The builders are then proved to
write exactly the encoding of the matching JSON-RPC object, and a peer is
proved to read that object back.

Modules:

| module | file | models |
|---|---|---|
| `Outcomes` | outcomes.dfy | `Option` and `Result` |
| `Decimal` | decimal.dfy | `String(n)` for integers; reading a decimal property name back |
| `JsValue` | jsvalue.dfy | JSON values, JavaScript truthiness, `String(v)`, member reads |
| `JsonText` | jsontext.dfy | `JSON.stringify` / `JSON.parse` on integer-only JSON, members kept in list order |
| `JsonRoundTrip` | jsonroundtrip.dfy | proof that parsing inverts stringifying |
| `Frames` | frames.dfy | `checkParam`, the `errors` table and the three builders |
| `Router` | router.dfy | `evalRoute` |
| `Endpoint` | endpoint.dfy | `invoke`, `handleResponse`, `handleError`, `handleRequest`, the classifier |
| `Correlation` | correlation.dfy | laws of ids, callbacks and answers |
| `Wrapping` | wrapping.dfy | `wrap` |
| `Pairing` | pairing.dfy | two endpoints piped into each other; route scenarios |

Handlers are abstract. A handler is a `HandlerId`. What it does when called
is a parameter `run: Invocation -> HandlerOutcome`: it calls back with an
error value and result values, it throws, or it returns without calling
back. Callbacks handed to `invoke` are `CallbackId`s. Calling one is recorded
in the endpoint's `fired` log.

Some behaviour of the code is surprising, and the model keeps it as written:

- After a missing or falsy route segment, the lookup moves on to the *next*
  segment of the route.
- Every failure inside `evalRoute` is reported as -32603, including the
  -32601 thrown for a route that reaches no function.
- An id of 0 is never answered and never matched, because it is falsy.
- Each call of a wrapped method rewrites the key its closure holds. With a
  prefix, the second call asks for `prefix.prefix.name`.
- Handlers always receive the params array spread, followed by the
  completion callback. There is no other calling convention.
- `specs.response` throws when the result is `undefined`; it does not use a
  default.
- The table is keyed by `String(id)`. The id `"1"` therefore matches the
  callback stored under `1`.

## Model

| member | source | states |
|---|---|---|
| `Decimal.ParseNatIff` | lib/json-rpc.js:113-118 | reading a property name as a table key gives `n` exactly when the name is the decimal spelling of `n` |
| `JsValue.Field` | lib/json-rpc.js:212-224 | a parsed object has a member exactly when some key matches; with duplicate keys the last one wins |
| `JsonRoundTrip.DecodeEncode` | lib/json-rpc.js:212 | parsing the text `JSON.stringify` writes, followed by any whitespace such as the frame's newline, gives back the value |
| `JsonRoundTrip.SurrogatePairEscape` | lib/json-rpc.js:212 | an escaped surrogate pair such as `\ud83d\ude00` reads as the one character it encodes; a high surrogate with nothing after it is rejected |
| `JsonRoundTrip.EscapePlain` | lib/json-rpc.js:55 | text with no quote, backslash or control character is written by `%s` exactly as `JSON.stringify` would quote it |
| `Frames.ErrorText` | lib/json-rpc.js:40-47 | the error table has a message for exactly the six reserved codes; "Internal error" is the message of -32603 and of no other code, and "Method not found" that of -32601 |
| `Frames.ErrorTextDistinct` | lib/json-rpc.js:40-47 | the table reads both ways: two codes with the same message are the same code |
| `Frames.Request` | lib/json-rpc.js:50-67 | fails with "no method given" exactly when the method is undefined; otherwise the text opens with the version and the method spliced in quotes, and ends with `}` |
| `Frames.Response` | lib/json-rpc.js:70-77 | fails with "no id given" or "no result given" exactly when that argument is undefined, checked in that order |
| `Frames.Error` | lib/json-rpc.js:80-96 | fails for a missing id, code or message, checked in that order; otherwise the text ends with `}}` |
| `Frames.RequestIsEncoding` | lib/json-rpc.js:50-67 | with a plain method name, the request text is the JSON encoding of the request object; `id` appears only when given and `params` only when not null |
| `Frames.ResponseIsEncoding` | lib/json-rpc.js:70-77 | the response text is the JSON encoding of `{jsonrpc, id, result}` |
| `Frames.ErrorIsEncoding` | lib/json-rpc.js:80-96 | with a plain message, the error text is the JSON encoding of the error object; `data` appears only when not null |
| `Frames.PreEncodedParams` | lib/json-rpc.js:61-63 | with `encoded` set, the params are spliced as raw text: the pre-encoded text of a value gives the same frame as the value |
| `Frames.PreEncodedResult` | lib/json-rpc.js:75-76 | the same for a pre-encoded result |
| `Frames.PreEncodedData` | lib/json-rpc.js:90-92 | the same for pre-encoded error data |
| `Frames.RequestRoundTrip` | lib/json-rpc.js:50-67 | a peer parsing a request frame reads back its method, its id only if one was given, and its params only if not null |
| `Frames.ResponseRoundTrip` | lib/json-rpc.js:70-77 | a peer parsing a response frame reads back its id and result, and finds no `method` |
| `Frames.ErrorRoundTrip` | lib/json-rpc.js:80-96 | a peer parsing an error frame reads back the id and the error's code, message and data, and finds neither `method` nor `result` |
| `Router.Split` | lib/json-rpc.js:175 | splitting a route gives at least one part, and no part contains a dot |
| `Router.SplitJoin` | lib/json-rpc.js:175 | joining the parts of a route with dots gives the route back |
| `Router.JoinSplit` | lib/json-rpc.js:175 | splitting dot-free parts joined with dots gives the parts back |
| `Router.Descend` | lib/json-rpc.js:176-183 | the key finally looked up is one of the route's segments |
| `Router.DescendAgreesWithLookup` | lib/json-rpc.js:174-186 | when every segment of the route exists, resolution finds what a full path lookup finds |
| `Router.MissingSegmentSkipped` | lib/json-rpc.js:176-186 | a missing or falsy segment is consumed, and the next segment is looked up on the object already reached |
| `Router.HandlerCallShape` | lib/json-rpc.js:195-199 | a resolved handler is called with the params (or none) followed by the completion callback, on the object it was found on |
| `Router.EvalRoute` | lib/json-rpc.js:171-208 | fails exactly when the route body raises anything, and then always with -32603, "Internal error" and null data, never -32601; it replies exactly when the handler calls back without an error |
| `Router.NotAFunctionIsInternalError` | lib/json-rpc.js:186-206 | a route that reaches no function raises -32601 inside, and the caller sees -32603 |
| `Endpoint.Invoke` | lib/json-rpc.js:230-249 | writes at most one line, only appends to the log, and writes nothing when it throws; the counter grows by at most one |
| `Endpoint.PendingId` | lib/json-rpc.js:113 | an answer matches a table entry only when its id is truthy and the entry is pending |
| `Endpoint.HandleResponse` | lib/json-rpc.js:110-120 | an unmatched response changes nothing; a matched one fires its callback once, with the result spread, and removes the entry |
| `Endpoint.HandleError` | lib/json-rpc.js:123-139 | an unmatched error changes nothing; a matched one fires its callback once, with an error built from the remote message, code and data, and removes the entry; a null `error` throws |
| `Endpoint.HandleRequest` | lib/json-rpc.js:142-166 | leaves the table and counter alone and writes at most one line; writes nothing and throws nothing without a target or with a falsy id |
| `Endpoint.Classify` | lib/json-rpc.js:215-224 | `method` wins over `result`, which wins over `error`; only primitives make the dispatch throw |
| `Endpoint.Receive` | lib/json-rpc.js:211-225 | one inbound message never adds a table entry, keeps the table well formed, and fires at most one callback; malformed text throws and changes nothing |
| `Correlation.InvokeKeepsTable` | lib/json-rpc.js:242-244 | a call keeps the table well formed: it adds at most the new id, which was free, and keeps every older entry |
| `Correlation.InvokeWithCallback` | lib/json-rpc.js:241-249 | a call with a callback stores it under the next id, which was free, and writes a frame carrying exactly that id |
| `Correlation.InvokeFrameDecodes` | lib/json-rpc.js:241-249 | the peer reads back the route, the params, and the id under which the callback is stored |
| `Correlation.InvokeWithoutCallback` | lib/json-rpc.js:242-248 | without a callback nothing is stored and the frame has no id |
| `Correlation.CallbackInParamsPosition` | lib/json-rpc.js:232-236 | a function in the params position becomes the callback and the params become null; the encoded flag then has no effect |
| `Correlation.InvokeRejectsParams` | lib/json-rpc.js:239 | truthy params that are not an array throw before anything is stored or written |
| `Correlation.InvokeWithoutRoute` | lib/json-rpc.js:242-248 | a missing method throws after the callback has been stored, and nothing is written |
| `Correlation.InvokeStep` | lib/json-rpc.js:229-249 | any call, with or without params, callback or route, stores exactly the callback it ends up with under the next id unless its params are rejected, and writes exactly one line when its params are accepted and it names a route |
| `Correlation.AllStored` | lib/json-rpc.js:241-244 | when every call of a run has a callback and acceptable params, all their callbacks are stored, in call order |
| `Correlation.StoredAppend` | lib/json-rpc.js:241-244 | the callbacks two runs of calls store are those of the first run followed by those of the second |
| `Correlation.AssignedValues` | lib/json-rpc.js:242-244 | in the closed-form table of successive calls, the n-th stored callback sits under `counter + n` |
| `Correlation.SuccessiveTable` | lib/json-rpc.js:238-247 | any run of calls, mixing params, notifications and calls that throw, advances the counter once per stored callback and adds exactly the closed-form entries, keeping every older entry and a well-formed table |
| `Correlation.SuccessiveFrames` | lib/json-rpc.js:238-249 | any run of calls appends to the log exactly the lines of its calls that write, in order, each carrying the id its call was given |
| `Correlation.CallLinesAppend` | lib/json-rpc.js:242-248 | the ids in the lines of a later run of calls continue after the callbacks an earlier run stored |
| `Correlation.NthFrame` | lib/json-rpc.js:246-248 | the i-th call's frame comes right after the frames of the calls before it, with the id after the callbacks they stored |
| `Correlation.NthEntry` | lib/json-rpc.js:241-244 | the i-th call's callback is stored under one more than the counter plus the callbacks stored before it |
| `Correlation.FrameIdMatchesTable` | lib/json-rpc.js:241-249 | in any run of calls, the frame of a call with a callback carries exactly the id under which that callback is stored |
| `Correlation.FreshIdsStartAtOne` | lib/json-rpc.js:103 | from a fresh endpoint, after any run of calls, the stored callbacks sit under 1, 2, 3, ... in the order they were stored, and nothing else is stored |
| `Correlation.NumericIdMatches` | lib/json-rpc.js:113 | a positive numeric id matches the entry stored under it, and only that one |
| `Correlation.StringIdAliases` | lib/json-rpc.js:113 | the decimal string of a pending id matches the same callback as the number |
| `Correlation.PendingIdMeans` | lib/json-rpc.js:126 | an id matches an entry exactly when it is truthy and its string form spells a pending key |
| `Correlation.UnmatchedAnswerIgnored` | lib/json-rpc.js:110-139 | a response or error whose id matches no pending key changes nothing and throws nothing |
| `Correlation.ZeroIdIgnored` | lib/json-rpc.js:126 | an answer with id 0 changes nothing |
| `Correlation.AnsweredIdGone` | lib/json-rpc.js:115-118 | once a response has fired, no spelling of the same id matches any more |
| `Correlation.ResponseAtMostOnce` | lib/json-rpc.js:110-120 | delivering the same response twice has the effect of delivering it once |
| `Correlation.ErrorAfterResponseIgnored` | lib/json-rpc.js:123-139 | an error for an id whose response already arrived is ignored |
| `Correlation.ErrorIdGone` | lib/json-rpc.js:133-136 | once an error has fired its callback, no spelling of the same id matches any more |
| `Correlation.ErrorAtMostOnce` | lib/json-rpc.js:123-139 | delivering the same error twice has the effect of delivering it once |
| `Correlation.ResponseAfterErrorIgnored` | lib/json-rpc.js:110-120 | a response for an id whose error already arrived is ignored |
| `Correlation.RejectionShape` | lib/json-rpc.js:128-131 | the error instance has the message "message (code)" and the remote code and data |
| `Correlation.AnswerLine` | lib/json-rpc.js:150-164 | a request with a truthy integer id gets exactly one line unless the handler never completes |
| `Correlation.CompletedRequestAnswered` | lib/json-rpc.js:150-157 | a completed request is answered by a response whose result is the array of completion values |
| `Correlation.FailedRequestAnswered` | lib/json-rpc.js:160-164 | a failed request is answered by an internal-error frame without data |
| `Correlation.FailureFrameFields` | lib/json-rpc.js:201-206 | that frame carries code -32603, not -32601, and no `data` member |
| `Correlation.NonIntegerIdThrows` | lib/json-rpc.js:155-163 | a truthy id that is not a number cannot be answered: the builder throws and nothing is written |
| `Correlation.RequestFrameKind` | lib/json-rpc.js:215-217 | a request frame is classified as a request |
| `Correlation.ResponseFrameKind` | lib/json-rpc.js:218-220 | a response frame is classified as a response |
| `Correlation.ErrorFrameKind` | lib/json-rpc.js:221-223 | an error frame is classified as an error |
| `Correlation.MethodTakesPriority` | lib/json-rpc.js:215 | an object with `method` is a request whatever else it carries |
| `Wrapping.Names` | lib/json-rpc.js:273-274 | the wrapper has one method per key, named by the key's string form |
| `Wrapping.Wrap` | lib/json-rpc.js:259-267 | with both arguments missing it fails with "no keys given"; it succeeds only on an array of keys; with the key list alone there is no prefix |
| `Wrapping.ArgsArray` | lib/json-rpc.js:275 | the argument array keeps every JSON argument in place, and functions and `undefined` are written as null |
| `Wrapping.CallWrapped` | lib/json-rpc.js:274-290 | a call rewrites only that method's key, to the prefixed key; an unknown name throws and changes nothing |
| `Wrapping.KeysOnly` | lib/json-rpc.js:260-264 | `wrap(keys)` is `wrap(null, keys)` |
| `Wrapping.WrapShape` | lib/json-rpc.js:270-293 | the prefix is set exactly when the route is truthy, and each key's method first holds its own name |
| `Wrapping.FirstCallIsInvoke` | lib/json-rpc.js:277-287 | the first call with a trailing function is exactly `invoke` of the prefixed name, with the other arguments and that function |
| `Wrapping.CallWithCallback` | lib/json-rpc.js:276-287 | a call with a trailing function is `invoke` of the rewritten key, with the other arguments and that function |
| `Wrapping.CallWithoutCallback` | lib/json-rpc.js:278-287 | without a trailing function the call is `invoke` with all arguments and no callback: nothing is stored and nothing is thrown |
| `Wrapping.KeyAccumulates` | lib/json-rpc.js:283-287 | every call prepends the prefix once more, so after n calls the key carries n more copies of it, and n lines have been written |
| `Wrapping.RepeatedWrapper` | lib/json-rpc.js:274-287 | repeated calls change the wrapper only as `Rewritten` describes: the method's key is rewritten once per call |
| `Wrapping.RepeatedKeys` | lib/json-rpc.js:283-285 | n rewrites of a key holding k copies of the prefix leave n + k copies, and keep the prefix |
| `Wrapping.RepeatedLines` | lib/json-rpc.js:286-287 | each call without arguments writes exactly one line |
| `Wrapping.WrapFs` | lib/json-rpc.js:259-294 | `wrap("fs", ["readdir"])` has prefix `fs` and one method, `readdir` |
| `Wrapping.FirstFsCallKey` | lib/json-rpc.js:283-285 | on that wrapper the first call rewrites the key of `readdir` to `fs.readdir` |
| `Wrapping.SecondCallDoublesPrefix` | lib/json-rpc.js:283-287 | on that wrapper, the second call of `readdir` invokes `fs.fs.readdir` |
| `Pairing.ServeRequest` | lib/json-rpc.js:142-159 | the serving side classifies a request frame as a request and calls the routed handler with the params it was sent |
| `Pairing.DeliverResponse` | lib/json-rpc.js:110-120 | a response for a pending id fires its callback with the result values and removes the entry |
| `Pairing.DeliverError` | lib/json-rpc.js:123-139 | an error frame for a pending id fires its callback with the "message (code)" error and removes the entry |
| `Pairing.ServeFailing` | lib/json-rpc.js:160-164 | a handler that throws is answered with one internal-error frame |
| `Pairing.AnswerDelivered` | lib/json-rpc.js:110-164 | the answer served for a completed request reaches the callback waiting under its id, which is then removed |
| `Pairing.FailureDelivered` | lib/json-rpc.js:123-164 | the internal error served for a throwing handler reaches the callback waiting under the request's id |
| `Pairing.CallAndAnswer` | lib/json-rpc.js:150-156 | end to end, a handler's completion values reach the caller's callback unchanged, and the caller's table is restored |
| `Pairing.CallAndFail` | lib/json-rpc.js:201-206 | end to end, a throwing handler makes the caller's callback receive the -32603 error without data |
| `Pairing.InternalErrorMessageText` | lib/json-rpc.js:128 | that error's message is "Internal error (-32603)" |
| `Pairing.SplitFsReaddir` | lib/json-rpc.js:175 | the concrete two-segment routes split at their dot |
| `Pairing.SplitRepeatedPrefix` | lib/json-rpc.js:175 | the routes with a repeated prefix split into their segments |
| `Pairing.FsRoutes` | lib/json-rpc.js:171-193 | on `{fs: {readdir}}`, `fs.readdir` reaches the handler |
| `Pairing.MissingLastSegment` | lib/json-rpc.js:176-186 | on `{fs: {readdir}}`, `fs.nope` reaches nothing |
| `Pairing.SkippedSegmentRoute` | lib/json-rpc.js:176-186 | `nope.foo` on `{foo: fn}` reaches `fn` |
| `Pairing.RepeatedPrefixRoutes` | lib/json-rpc.js:176-186 | `fs.fs.readdir` still reaches the handler because the second `fs` is skipped; `fs.fs.fs.readdir` does not |
| `Pairing.FooRoute` | test/rpc.js:5-8 | `foo` resolves to its handler on the example's remote target |
| `Pairing.FooScenario` | test/rpc.js:21-23 | `invoke("foo", cb)` against a `foo` that calls back with `(null, "bar", 123)` fires `cb` once with `"bar"` and `123`, and empties the table |

The rows above rest on definitions that carry no row of their own, because
each is the direct transcription of the code it names. They are
`JsonText.Encode` (`JSON.stringify`), `JsonText.Decode` (`JSON.parse`),
`JsValue.Truthy` and `JsValue.ToJsString` (truthiness and `String(v)`),
`Router.Resolve` (lib/json-rpc.js:174-186), `Router.Arguments`,
`Router.RouteBody` and `Router.Outcome` (the body of `evalRoute`,
lib/json-rpc.js:171-206), `Router.Member` (`t[key]`), `Endpoint.Create`
(`rpc(target)`, lib/json-rpc.js:103), `Endpoint.Spread` (`[null].concat`,
lib/json-rpc.js:114), `Endpoint.ErrorMessage` (`"%s (%s)"`,
lib/json-rpc.js:128), `Endpoint.ReplyText` (the completion callback of
`handleRequest`, lib/json-rpc.js:150-164), `Endpoint.CallParams` and
`Endpoint.CallCallback` (lib/json-rpc.js:231-235), `Wrapping.NextKey`
(lib/json-rpc.js:283-285) and `Wrapping.Rewritten`.

## Left out

- The `through` stream, `pipe` and `emit` are I/O plumbing. Outbound lines are an appended log. Delivery is an explicit `Receive` of one line, so one write carries exactly one JSON text and chunking is not modelled.
- JSON numbers are integers only: fractions, exponents and floating-point precision are not modelled. Duplicate keys are kept in member order, and `Field` takes the last one, as `JSON.parse` does.
- For an object, `util.format("%s", …)` prints via `util.inspect`. The model uses `String()` for every `%s`. Method names and keys that are objects are not modelled.
- The builders insert the method and message unquoted and unescaped. The text is only proved to be valid JSON, and to read back, when they contain no quote, backslash or control character.
- The counter reset at `Number.MAX_VALUE` is left out. `++` on a double stops changing the value long before reaching it, so the counter is a `nat` and ids never wrap.
- Asynchronous handlers are left out, including those whose callback runs after `evalRoute` returns. So are handlers that call back more than once, and handlers that throw after calling back. Each of these writes additional frames or throws out of the stream.
- Properties inherited from `Object.prototype` are left out, both on the target and on the callback table (`toString`, `constructor`, `__proto__`). Members of functions and of primitive values are left out too. Only plain objects of the target tree have members.
- The `this` value a handler sees is recorded as the object it was found on. The values `invoke` and wrapped methods return, used for chaining, are not modelled.
- `invoke` with a method that is neither a string nor undefined is not modelled.
- The `encdoded` typo and the implicit global `wrapper` are left out. The typo has no effect: `Correlation.CallbackInParamsPosition` shows that the flag is irrelevant on that path.
- `checkParam`'s `parseInt` identity test is expressed by the types: ids and codes are `int`, and the non-integer request id is handled in `HandleRequest`.
- The texts of JavaScript's own exceptions (`TypeError`, `SyntaxError`) are placeholders. Only whether something is thrown is modelled, together with the exact texts thrown by `checkParam`.
- Request: its contract states the failure case, the opening members and the closing brace, not that the whole text is one object. That the text is exactly the encoding of the request object is proved by `Frames.RequestIsEncoding`, for method names that need no escaping; other method names are spliced raw, as the code does.
- Callbacks handed to `invoke` are assumed to return normally. A callback that throws skips the `delete` that follows it (lib/json-rpc.js:114-117 and 133-136), so its id stays pending and a later answer for it fires it again. In two piped endpoints, that throw can also come back through the peer's `evalRoute` as a -32603 error frame for the same id. `ResponseAtMostOnce`, `ErrorAtMostOnce` and the other at-most-once lemmas hold only for callbacks that return.
- JsonText.Encode: a JavaScript object lists integer-like keys first, in ascending order, and holds each key once. `Encode` keeps the member list as given, so it also writes objects that no JavaScript value stringifies to. The frames and the argument arrays the endpoint writes have only fixed, non-numeric keys, so they are not affected.
- JsonText.Decode: a `\u` escape of a lone surrogate (one not part of a high-low pair) is rejected, because a Dafny string holds only Unicode scalar values. `JSON.parse` accepts it, so a frame carrying such a string throws in the model and not in the code. Surrogate pairs are decoded as `JSON.parse` decodes them.
- `Router.Descend`: its contract only says that the final key is one of the route's segments. What it resolves to is stated by `Router.DescendAgreesWithLookup` and `Router.MissingSegmentSkipped`.
