/** The three frame builders of `specs` (request, response, error). The wire
    shapes are those of sections 4, 5 and 5.1 of the JSON-RPC 2.0 specification. */
module Frames {
  import opened Outcomes
  import opened Decimal
  import opened JsValue
  import opened JsonText
  import opened JsonRoundTrip

  const MethodNotFound: int := -32601
  const InternalError: int := -32603

  /** The `errors` table: reserved codes and their messages. */
  function ErrorText(code: int): (r: Option<string>)
    ensures r.Some? <==> code in {-32700, -32600, -32601, -32602, -32603, -32000}
    ensures r == Some("Internal error") <==> code == InternalError
    ensures r == Some("Method not found") <==> code == MethodNotFound
  {
    if code == -32700 then Some("Parse error")
    else if code == -32600 then Some("Invalid Request")
    else if code == -32601 then Some("Method not found")
    else if code == -32602 then Some("Invalid params")
    else if code == -32603 then Some("Internal error")
    else if code == -32000 then Some("Server error")
    else None
  }

  /** The table reads both ways: no two codes share a message. */
  lemma ErrorTextDistinct(a: int, b: int)
    requires ErrorText(a).Some? && ErrorText(a) == ErrorText(b)
    ensures a == b
  {
  }

  /** `x != null`, where `None` is `undefined`. */
  predicate NotNull(v: Option<Json>) {
    v.Some? && v.value != JNull
  }

  /** How a payload is spliced: `JSON.stringify(v)`, or `String(v)` when the caller says it is already encoded. */
  function PayloadText(v: Json, encoded: bool): string {
    if encoded then ToJsString(v) else Encode(v)
  }

  function Request(methodName: Option<string>, id: Option<int>, params: Option<Json>, encoded: bool): (r: Result<string>)
    ensures r.Fail? <==> methodName.None?
    ensures r.Fail? ==> r.reason == "no method given"
    ensures r.Ok? ==> "{\"jsonrpc\":\"2.0\",\"method\":\"" + methodName.value + "\"" <= r.value
    ensures r.Ok? ==> |r.value| > 0 && r.value[|r.value| - 1] == '}'
  {
    if methodName.None? then Fail("no method given")
    else
      var head := "{\"jsonrpc\":\"2.0\",\"method\":\"" + methodName.value + "\"";
      var withId := if id.Some? then head + ",\"id\":" + IntToString(id.value) else head;
      var withParams := if NotNull(params) then withId + ",\"params\":" + PayloadText(params.value, encoded) else withId;
      Ok(withParams + "}")
  }

  function Response(id: Option<int>, result: Option<Json>, encoded: bool): (r: Result<string>)
    ensures r.Fail? <==> id.None? || result.None?
    ensures id.None? ==> r == Fail("no id given")
    ensures id.Some? && result.None? ==> r == Fail("no result given")
    ensures r.Ok? ==> |r.value| > 0 && r.value[|r.value| - 1] == '}'
  {
    if id.None? then Fail("no id given")
    else if result.None? then Fail("no result given")
    else Ok("{\"jsonrpc\":\"2.0\",\"id\":" + IntToString(id.value) + ",\"result\":" + PayloadText(result.value, encoded) + "}")
  }

  function Error(id: Option<int>, code: Option<int>, message: Option<string>, data: Option<Json>, encoded: bool): (r: Result<string>)
    ensures r.Fail? <==> id.None? || code.None? || message.None?
    ensures id.None? ==> r == Fail("no id given")
    ensures id.Some? && code.None? ==> r == Fail("no code given")
    ensures id.Some? && code.Some? && message.None? ==> r == Fail("no message given")
    ensures r.Ok? ==> |r.value| >= 2 && r.value[|r.value| - 2..] == "}}"
  {
    if id.None? then Fail("no id given")
    else if code.None? then Fail("no code given")
    else if message.None? then Fail("no message given")
    else
      var head := "{\"jsonrpc\":\"2.0\",\"id\":" + IntToString(id.value) + ",\"error\":{\"code\":" + IntToString(code.value)
        + ",\"message\":\"" + message.value + "\"";
      var withData := if NotNull(data) then head + ",\"data\":" + PayloadText(data.value, encoded) else head;
      Ok(withData + "}}")
  }

  // ---------------------------------------------------------------------
  // Reference objects: the JSON value each frame is the text of.
  // ---------------------------------------------------------------------

  const Version: (string, Json) := ("jsonrpc", JStr("2.0"))

  function RequestObject(methodName: string, id: Option<int>, params: Option<Json>): Json {
    JObj([Version, ("method", JStr(methodName))]
      + (if id.Some? then [("id", JNum(id.value))] else [])
      + (if NotNull(params) then [("params", params.value)] else []))
  }

  function ResponseObject(id: int, result: Json): Json {
    JObj([Version, ("id", JNum(id)), ("result", result)])
  }

  function ErrorObject(id: int, code: int, message: string, data: Option<Json>): Json {
    JObj([Version, ("id", JNum(id)),
      ("error", JObj([("code", JNum(code)), ("message", JStr(message))]
        + (if NotNull(data) then [("data", data.value)] else [])))])
  }

  // ---------------------------------------------------------------------
  // Builders and reference objects agree.
  // ---------------------------------------------------------------------

  lemma {:induction false} EncodeFieldsSnoc(fields: seq<(string, Json)>, m: (string, Json))
    requires |fields| >= 1
    ensures EncodeFields(fields + [m]) == EncodeFields(fields) + "," + EncodeMember(m)
  {
    var all := fields + [m];
    assert all[0] == fields[0];
    if |fields| == 1 {
      assert all[1..] == [m];
    } else {
      assert all[1..] == fields[1..] + [m];
      EncodeFieldsSnoc(fields[1..], m);
    }
  }

  lemma QuotePlain(s: string)
    requires PlainText(s)
    ensures Quote(s) == "\"" + s + "\""
  {
    EscapePlain(s);
  }

  lemma VersionPlain()
    ensures PlainText("jsonrpc") && PlainText("2.0")
  {
    var key, value := "jsonrpc", "2.0";
    forall i | 0 <= i < |key|
      ensures Literal(key[i])
    {
    }
    forall i | 0 <= i < |value|
      ensures Literal(value[i])
    {
    }
  }

  /** The member names the builders write need no escaping. */
  lemma MemberNamesPlain()
    ensures PlainText("method") && PlainText("id") && PlainText("params") && PlainText("result")
    ensures PlainText("error") && PlainText("code") && PlainText("message") && PlainText("data")
  {
    var names := ["method", "id", "params", "result", "error", "code", "message", "data"];
    forall k, i | 0 <= k < |names| && 0 <= i < |names[k]|
      ensures Literal(names[k][i])
    {
    }
    assert forall k | 0 <= k < |names| :: PlainText(names[k]);
  }

  lemma VersionText()
    ensures EncodeMember(Version) == "\"jsonrpc\":\"2.0\""
  {
    VersionPlain();
    MemberText("jsonrpc", JStr("2.0"));
    QuotePlain("2.0");
    VersionLiteral();
  }

  lemma VersionLiteral()
    ensures "\"" + "jsonrpc" + "\":" + ("\"" + "2.0" + "\"") == "\"jsonrpc\":\"2.0\""
  {
  }

  lemma MemberText(key: string, v: Json)
    requires PlainText(key)
    ensures EncodeMember((key, v)) == "\"" + key + "\":" + Encode(v)
  {
    QuotePlain(key);
  }

  lemma Assoc(a: string, b: string, c: string, d: string, e: string)
    ensures (a + b) + (c + d) + e == a + (b + c + (d + e))
  {
  }

  /** Every frame object opens with the protocol version. */
  lemma OpenText()
    ensures "{" + EncodeFields([Version]) == "{\"jsonrpc\":\"2.0\""
  {
    VersionText();
    assert EncodeFields([Version]) == EncodeMember(Version);
    var open := "{\"jsonrpc\":\"2.0\"";
    assert open[..1] == "{" && open[1..] == "\"jsonrpc\":\"2.0\"";
  }

  /** The separators the builders write before each member. */
  lemma MemberSeparators()
    ensures ",\"id\":" == "," + ("\"" + "id" + "\":")
    ensures ",\"method\":" == "," + ("\"" + "method" + "\":")
    ensures ",\"params\":" == "," + ("\"" + "params" + "\":")
    ensures ",\"result\":" == "," + ("\"" + "result" + "\":")
    ensures ",\"error\":" == "," + ("\"" + "error" + "\":")
    ensures ",\"message\":" == "," + ("\"" + "message" + "\":")
    ensures ",\"data\":" == "," + ("\"" + "data" + "\":")
  {
  }

  /** Appending one member to an object under construction. */
  lemma SnocText(fields: seq<(string, Json)>, key: string, v: Json, text: string, sep: string)
    requires |fields| >= 1 && PlainText(key)
    requires text == "{" + EncodeFields(fields)
    requires sep == "," + ("\"" + key + "\":")
    ensures text + sep + Encode(v) == "{" + EncodeFields(fields + [(key, v)])
  {
    EncodeFieldsSnoc(fields, (key, v));
    MemberText(key, v);
    Assoc("{", EncodeFields(fields), ",", "\"" + key + "\":", Encode(v));
  }

  /** Appending a member whose value is an unescaped string. */
  lemma SnocStringText(fields: seq<(string, Json)>, key: string, v: string, text: string, sep: string)
    requires |fields| >= 1 && PlainText(key) && PlainText(v)
    requires text == "{" + EncodeFields(fields)
    requires sep == "," + ("\"" + key + "\":")
    ensures (text + sep + "\"") + v + "\"" == "{" + EncodeFields(fields + [(key, JStr(v))])
  {
    SnocText(fields, key, JStr(v), text, sep);
    QuotePlain(v);
    ConcatAssoc(text + sep, "\"", v);
    ConcatAssoc(text + sep, "\"" + v, "\"");
  }

  lemma CloseText(fields: seq<(string, Json)>, text: string)
    requires text == "{" + EncodeFields(fields)
    ensures text + "}" == Encode(JObj(fields))
  {
  }

  lemma RequestHeadText(methodName: string)
    requires PlainText(methodName)
    ensures "{\"jsonrpc\":\"2.0\",\"method\":\"" + methodName + "\""
      == "{" + EncodeFields([Version, ("method", JStr(methodName))])
  {
    var open := "{\"jsonrpc\":\"2.0\"";
    OpenText();
    MemberSeparators();
    MemberNamesPlain();
    SnocStringText([Version], "method", methodName, open, ",\"method\":");
    assert open + ",\"method\":" + "\"" == "{\"jsonrpc\":\"2.0\",\"method\":\"";
    assert [Version] + [("method", JStr(methodName))] == [Version, ("method", JStr(methodName))];
  }

  /** An optional member: its text is empty when it is left out. */
  lemma OptionalMemberText(fields: seq<(string, Json)>, head: string, key: string, v: Option<Json>, sep: string)
    requires |fields| >= 1 && PlainText(key) && head == "{" + EncodeFields(fields)
    requires sep == "," + ("\"" + key + "\":")
    ensures head + (if v.Some? then sep + Encode(v.value) else "")
      == "{" + EncodeFields(fields + (if v.Some? then [(key, v.value)] else []))
  {
    if v.Some? {
      SnocText(fields, key, v.value, head, sep);
      ConcatAssoc(head, sep, Encode(v.value));
    } else {
      assert fields + [] == fields;
      assert head + "" == head;
    }
  }

  /** The optional `id` member of a request. */
  lemma RequestIdText(base: seq<(string, Json)>, head: string, id: Option<int>)
    requires |base| >= 1 && head == "{" + EncodeFields(base)
    ensures (if id.Some? then head + ",\"id\":" + IntToString(id.value) else head)
      == "{" + EncodeFields(base + (if id.Some? then [("id", JNum(id.value))] else []))
  {
    if id.Some? {
      MemberSeparators();
      MemberNamesPlain();
      SnocText(base, "id", JNum(id.value), head, ",\"id\":");
    } else {
      assert base + [] == base;
    }
  }

  /** A `params` member and the closing brace. */
  lemma ParamsPresentText(fields: seq<(string, Json)>, text: string, p: Json)
    requires |fields| >= 1 && text == "{" + EncodeFields(fields)
    ensures text + ",\"params\":" + Encode(p) + "}" == Encode(JObj(fields + [("params", p)]))
  {
    MemberSeparators();
    MemberNamesPlain();
    SnocText(fields, "params", p, text, ",\"params\":");
    CloseText(fields + [("params", p)], text + ",\"params\":" + Encode(p));
  }

  /** The optional `params` member of a request, and the closing brace. */
  lemma RequestParamsText(fields: seq<(string, Json)>, text: string, params: Option<Json>)
    requires |fields| >= 1 && text == "{" + EncodeFields(fields)
    ensures (if NotNull(params) then text + ",\"params\":" + Encode(params.value) else text) + "}"
      == Encode(JObj(fields + (if NotNull(params) then [("params", params.value)] else [])))
  {
    if NotNull(params) {
      ParamsPresentText(fields, text, params.value);
    } else {
      assert fields + [] == fields;
      CloseText(fields, text);
    }
  }

  /** The optional `id` and `params` members of a request. */
  lemma RequestTailText(base: seq<(string, Json)>, head: string, id: Option<int>, params: Option<Json>)
    requires |base| >= 1 && head == "{" + EncodeFields(base)
    ensures
      var withId := if id.Some? then head + ",\"id\":" + IntToString(id.value) else head;
      var withParams := if NotNull(params) then withId + ",\"params\":" + Encode(params.value) else withId;
      withParams + "}" == Encode(JObj(base
        + (if id.Some? then [("id", JNum(id.value))] else [])
        + (if NotNull(params) then [("params", params.value)] else [])))
  {
    RequestIdText(base, head, id);
    var fields := base + (if id.Some? then [("id", JNum(id.value))] else []);
    var withId := if id.Some? then head + ",\"id\":" + IntToString(id.value) else head;
    RequestParamsText(fields, withId, params);
  }

  /** With a method name that needs no escaping, `request` writes exactly the
      JSON text of the request object. */
  lemma RequestIsEncoding(methodName: string, id: Option<int>, params: Option<Json>)
    requires PlainText(methodName)
    ensures Request(Some(methodName), id, params, false) == Ok(Encode(RequestObject(methodName, id, params)))
  {
    RequestHeadText(methodName);
    RequestTailText([Version, ("method", JStr(methodName))],
      "{\"jsonrpc\":\"2.0\",\"method\":\"" + methodName + "\"", id, params);
  }

  /** Response and error frames open with the version and then the id. */
  lemma IdHeadText()
    ensures "{\"jsonrpc\":\"2.0\",\"id\":" == "{\"jsonrpc\":\"2.0\"" + ",\"id\":"
  {
    var s := "{\"jsonrpc\":\"2.0\",\"id\":";
    assert s[..16] == "{\"jsonrpc\":\"2.0\"" && s[16..] == ",\"id\":";
  }

  /** A frame of the version, an id and one more member. */
  lemma IdFrameText(id: int, key: string, v: Json, sep: string)
    requires PlainText(key) && sep == "," + ("\"" + key + "\":")
    ensures "{\"jsonrpc\":\"2.0\"" + ",\"id\":" + IntToString(id) + sep + Encode(v) + "}"
      == Encode(JObj([Version, ("id", JNum(id)), (key, v)]))
  {
    var open := "{\"jsonrpc\":\"2.0\"";
    OpenText();
    MemberSeparators();
    var head := open + ",\"id\":" + IntToString(id);
    MemberNamesPlain();
    SnocText([Version], "id", JNum(id), open, ",\"id\":");
    var two := [Version] + [("id", JNum(id))];
    SnocText(two, key, v, head, sep);
    CloseText(two + [(key, v)], head + sep + Encode(v));
    assert two + [(key, v)] == [Version, ("id", JNum(id)), (key, v)];
  }

  /** `response` always writes exactly the JSON text of the response object. */
  lemma ResponseIsEncoding(id: int, result: Json)
    ensures Response(Some(id), Some(result), false) == Ok(Encode(ResponseObject(id, result)))
  {
    MemberSeparators();
    MemberNamesPlain();
    IdFrameText(id, "result", result, ",\"result\":");
    IdHeadText();
  }

  lemma CodeOpenText()
    ensures "{\"code\":" == "{" + ("\"" + "code" + "\":")
  {
  }

  lemma CodeMessageText(code: int, message: string)
    requires PlainText(message)
    ensures "{\"code\":" + IntToString(code) + ",\"message\":\"" + message + "\""
      == "{" + EncodeFields([("code", JNum(code)), ("message", JStr(message))])
  {
    MemberSeparators();
    var one := [("code", JNum(code))];
    MemberNamesPlain();
    MemberText("code", JNum(code));
    var codeText := "{\"code\":" + IntToString(code);
    CodeOpenText();
    ConcatAssoc("{", "\"" + "code" + "\":", IntToString(code));
    assert EncodeFields(one) == EncodeMember(one[0]);
    SnocStringText(one, "message", message, codeText, ",\"message\":");
    assert codeText + ",\"message\":\"" == codeText + ",\"message\":" + "\"";
    assert one + [("message", JStr(message))] == [("code", JNum(code)), ("message", JStr(message))];
  }

  /** The `error` member of an error frame. */
  lemma ErrorBodyText(code: int, message: string, data: Option<Json>)
    requires PlainText(message)
    ensures Encode(JObj([("code", JNum(code)), ("message", JStr(message))]
        + (if NotNull(data) then [("data", data.value)] else [])))
      == "{\"code\":" + IntToString(code) + ",\"message\":\"" + message + "\""
        + (if NotNull(data) then ",\"data\":" + Encode(data.value) else "") + "}"
  {
    MemberSeparators();
    var inner := [("code", JNum(code)), ("message", JStr(message))];
    var head := "{\"code\":" + IntToString(code) + ",\"message\":\"" + message + "\"";
    CodeMessageText(code, message);
    var dataValue := if NotNull(data) then data else None;
    MemberNamesPlain();
    OptionalMemberText(inner, head, "data", dataValue, ",\"data\":");
    var body := inner + (if dataValue.Some? then [("data", dataValue.value)] else []);
    CloseText(body, head + (if dataValue.Some? then ",\"data\":" + Encode(dataValue.value) else ""));
  }

  /** With a message that needs no escaping, `error` writes exactly the JSON
      text of the error object. */
  lemma ErrorIsEncoding(id: int, code: int, message: string, data: Option<Json>)
    requires PlainText(message)
    ensures Error(Some(id), Some(code), Some(message), data, false) == Ok(Encode(ErrorObject(id, code, message, data)))
  {
    var body := JObj([("code", JNum(code)), ("message", JStr(message))]
      + (if NotNull(data) then [("data", data.value)] else []));
    var bodyOpen := "{\"code\":" + IntToString(code) + ",\"message\":\"" + message + "\""
      + (if NotNull(data) then ",\"data\":" + Encode(data.value) else "");
    ErrorBodyText(code, message, data);
    assert Encode(body) == bodyOpen + "}";
    MemberSeparators();
    MemberNamesPlain();
    IdFrameText(id, "error", body, ",\"error\":");
    ErrorBuiltText(id, code, message, data, "{\"jsonrpc\":\"2.0\"" + ",\"id\":" + IntToString(id), bodyOpen);
  }

  lemma ErrorAssoc(open: string, sid: string, i: string, serr: string, lc: string, c: string, lm: string,
                   m: string, q: string, d: string)
    ensures open + sid + i + (serr + lc) + c + lm + m + q + d + ("}" + "}")
      == (open + sid + i) + serr + ((lc + c + lm + m + q + d) + "}") + "}"
  {
  }

  lemma ErrorBuiltText(id: int, code: int, message: string, data: Option<Json>, head: string, bodyOpen: string)
    requires PlainText(message)
    requires head == "{\"jsonrpc\":\"2.0\"" + ",\"id\":" + IntToString(id)
    requires bodyOpen == "{\"code\":" + IntToString(code) + ",\"message\":\"" + message + "\""
      + (if NotNull(data) then ",\"data\":" + Encode(data.value) else "")
    ensures Error(Some(id), Some(code), Some(message), data, false) == Ok(head + ",\"error\":" + (bodyOpen + "}") + "}")
  {
    var open := "{\"jsonrpc\":\"2.0\"";
    var d := if NotNull(data) then ",\"data\":" + Encode(data.value) else "";
    IdHeadText();
    assert ",\"error\":{\"code\":" == ",\"error\":" + "{\"code\":";
    assert "}}" == "}" + "}";
    var built := "{\"jsonrpc\":\"2.0\",\"id\":" + IntToString(id) + ",\"error\":{\"code\":" + IntToString(code)
        + ",\"message\":\"" + message + "\"";
    if NotNull(data) {
      ConcatAssoc(built, ",\"data\":", Encode(data.value));
    } else {
      assert built + "" == built;
    }
    ErrorAssoc(open, ",\"id\":", IntToString(id), ",\"error\":", "{\"code\":", IntToString(code),
      ",\"message\":\"", message, "\"", d);
  }

  /** With `encoded` set, a payload is spliced as its own text: passing the
      JSON text of a value as a pre-encoded string writes the same frame as
      passing the value itself. */
  lemma PreEncodedParams(methodName: string, id: Option<int>, params: Json)
    requires params != JNull
    ensures Request(Some(methodName), id, Some(JStr(Encode(params))), true) == Request(Some(methodName), id, Some(params), false)
  {
  }

  lemma PreEncodedResult(id: int, result: Json)
    ensures Response(Some(id), Some(JStr(Encode(result))), true) == Response(Some(id), Some(result), false)
  {
  }

  lemma PreEncodedData(id: int, code: int, message: string, data: Json)
    requires data != JNull
    ensures Error(Some(id), Some(code), Some(message), Some(JStr(Encode(data))), true)
      == Error(Some(id), Some(code), Some(message), Some(data), false)
  {
  }

  // ---------------------------------------------------------------------
  // What the peer reads back from each frame.
  // ---------------------------------------------------------------------

  /** `JSON.parse` of a request frame recovers its method, id and params
      (params only when not null, id only when given). */
  lemma RequestRoundTrip(methodName: string, id: Option<int>, params: Option<Json>)
    requires PlainText(methodName)
    ensures Request(Some(methodName), id, params, false).Ok?
    ensures Decode(Request(Some(methodName), id, params, false).value + "\n") == Some(RequestObject(methodName, id, params))
    ensures var fields := RequestObject(methodName, id, params).fields;
      && Field(fields, "method") == Some(JStr(methodName))
      && Field(fields, "id") == (if id.Some? then Some(JNum(id.value)) else None)
      && Field(fields, "params") == (if NotNull(params) then params else None)
  {
    RequestIsEncoding(methodName, id, params);
    DecodeEncode(RequestObject(methodName, id, params), "\n");
    RequestFields(methodName, id, params);
  }

  /** The member names of a request differ from one another. */
  lemma RequestKeysDistinct()
    ensures "jsonrpc" != "method" && "jsonrpc" != "id" && "jsonrpc" != "params"
    ensures "method" != "id" && "method" != "params" && "id" != "params"
  {
    assert "jsonrpc"[0] == 'j' && "method"[0] == 'm' && "params"[0] == 'p';
    assert |"id"| == 2;
  }

  /** The members a request object carries. */
  lemma RequestFields(methodName: string, id: Option<int>, params: Option<Json>)
    ensures var fields := RequestObject(methodName, id, params).fields;
      && Field(fields, "method") == Some(JStr(methodName))
      && Field(fields, "id") == (if id.Some? then Some(JNum(id.value)) else None)
      && Field(fields, "params") == (if NotNull(params) then params else None)
  {
    RequestKeysDistinct();
    RequestFieldAt(methodName, id, params, "method");
    RequestFieldAt(methodName, id, params, "id");
    RequestFieldAt(methodName, id, params, "params");
  }

  /** Looking up one of the request's member names. */
  lemma RequestFieldAt(methodName: string, id: Option<int>, params: Option<Json>, k: string)
    requires k != "jsonrpc"
    ensures Field(RequestObject(methodName, id, params).fields, k) ==
      if k == "params" && NotNull(params) then params
      else if k == "id" && id.Some? then Some(JNum(id.value))
      else if k == "method" then Some(JStr(methodName))
      else None
  {
    var base := [Version, ("method", JStr(methodName))];
    var withId := base + (if id.Some? then [("id", JNum(id.value))] else []);
    var all := withId + (if NotNull(params) then [("params", params.value)] else []);
    assert base == [Version] + [("method", JStr(methodName))];
    FieldSnoc([Version], "method", JStr(methodName), k);
    FieldSnoc([], Version.0, Version.1, k);
    assert [] + [Version] == [Version];
    if id.Some? {
      FieldSnoc(base, "id", JNum(id.value), k);
    } else {
      assert withId == base;
    }
    if NotNull(params) {
      FieldSnoc(withId, "params", params.value, k);
    } else {
      assert all == withId;
    }
  }

  /** `JSON.parse` of a response frame recovers its id and result. */
  lemma ResponseRoundTrip(id: int, result: Json)
    ensures Response(Some(id), Some(result), false).Ok?
    ensures Decode(Response(Some(id), Some(result), false).value + "\n") == Some(ResponseObject(id, result))
    ensures var fields := ResponseObject(id, result).fields;
      && Field(fields, "id") == Some(JNum(id))
      && Field(fields, "result") == Some(result)
      && !HasField(fields, "method")
  {
    ResponseIsEncoding(id, result);
    DecodeEncode(ResponseObject(id, result), "\n");
    var fields := ResponseObject(id, result).fields;
    assert fields[2] == ("result", result) && fields[1] == ("id", JNum(id));
    assert Field(fields, "id") == Field(fields[..2], "id");
  }

  lemma ErrorBodyFields(code: int, message: string, data: Option<Json>)
    ensures var body := JObj([("code", JNum(code)), ("message", JStr(message))]
        + (if NotNull(data) then [("data", data.value)] else []));
      && Prop(body, "code") == Some(JNum(code))
      && Prop(body, "message") == Some(JStr(message))
      && Prop(body, "data") == (if NotNull(data) then data else None)
  {
    var inner := [("code", JNum(code)), ("message", JStr(message))];
    assert Field(inner, "code") == Some(JNum(code)) by {
      assert inner[..1] == [("code", JNum(code))];
    }
    assert Field(inner, "data") == None by {
      assert inner[..1] == [("code", JNum(code))];
    }
    if NotNull(data) {
      var body := inner + [("data", data.value)];
      assert body[..2] == inner;
      assert Field(body, "code") == Field(inner, "code");
      assert Field(body, "message") == Field(inner, "message");
    } else {
      assert inner + [] == inner;
    }
  }

  /** `JSON.parse` of an error frame recovers its id and its `error` member. */
  lemma ErrorRoundTrip(id: int, code: int, message: string, data: Option<Json>)
    requires PlainText(message)
    ensures Error(Some(id), Some(code), Some(message), data, false).Ok?
    ensures Decode(Error(Some(id), Some(code), Some(message), data, false).value + "\n") == Some(ErrorObject(id, code, message, data))
    ensures var fields := ErrorObject(id, code, message, data).fields;
      && Field(fields, "id") == Some(JNum(id))
      && !HasField(fields, "method") && !HasField(fields, "result")
      && Field(fields, "error").Some?
      && Prop(Field(fields, "error").value, "code") == Some(JNum(code))
      && Prop(Field(fields, "error").value, "message") == Some(JStr(message))
      && Prop(Field(fields, "error").value, "data") == (if NotNull(data) then data else None)
  {
    ErrorIsEncoding(id, code, message, data);
    DecodeEncode(ErrorObject(id, code, message, data), "\n");
    var fields := ErrorObject(id, code, message, data).fields;
    assert Field(fields, "id") == Field(fields[..2], "id");
    ErrorBodyFields(code, message, data);
  }
}
