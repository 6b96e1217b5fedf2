/** `JSON.parse` undoes `JSON.stringify` on every value of the model. */
module JsonRoundTrip {
  import opened Outcomes
  import opened Decimal
  import opened JsValue
  import opened JsonText

  lemma SkipWsAllWs(w: string)
    requires AllWs(w)
    ensures SkipWs(w) == []
  {
  }

  lemma HexRoundTrip(d: nat)
    requires d < 16
    ensures IsHex(HexDigit(d)) && HexValue(HexDigit(d)) == d
  {
  }

  /** Every encoding is non-empty and starts with a character that opens a value. */
  lemma EncodeHead(v: Json)
    ensures |Encode(v)| >= 1
    ensures !IsWs(Encode(v)[0]) && Encode(v)[0] != ']' && Encode(v)[0] != '}'
  {
    match v
    case JNum(n) =>
      if n >= 0 {
        assert IsDigit(NatToString(n)[0]);
      }
    case _ =>
  }

  lemma {:induction false} DigitRunOf(d: string, rest: string)
    requires AllDigits(d)
    requires rest == [] || !IsDigit(rest[0])
    ensures DigitRun(d + rest) == |d|
  {
    if |d| > 0 {
      assert (d + rest)[1..] == d[1..] + rest;
      DigitRunOf(d[1..], rest);
    }
  }

  /** The digit run of a decimal spelling followed by a non-digit. */
  lemma DigitsThen(m: nat, rest: string)
    requires rest == [] || !IsDigit(rest[0])
    ensures var t := NatToString(m) + rest;
      && DigitRun(t) == |NatToString(m)|
      && t[..|NatToString(m)|] == NatToString(m)
      && t[|NatToString(m)|..] == rest
      && ParseNat(NatToString(m)) == Some(m)
  {
    var digits := NatToString(m);
    DigitRunOf(digits, rest);
    NatToStringValue(m);
    assert (digits + rest)[..|digits|] == digits;
    assert (digits + rest)[|digits|..] == rest;
  }

  lemma ParseNumberEncoded(n: int, rest: string)
    requires rest == [] || !IsDigit(rest[0])
    ensures ParseNumber(IntToString(n) + rest) == Some((JNum(n), rest))
  {
    if n < 0 {
      ParseNegativeEncoded(-n, rest);
    } else {
      ParseNaturalEncoded(n, rest);
    }
  }

  lemma ParseNaturalEncoded(m: nat, rest: string)
    requires rest == [] || !IsDigit(rest[0])
    ensures ParseNumber(NatToString(m) + rest) == Some((JNum(m), rest))
  {
    DigitsThen(m, rest);
    assert IsDigit((NatToString(m) + rest)[0]);
  }

  lemma ParseNegativeEncoded(m: nat, rest: string)
    requires m > 0
    requires rest == [] || !IsDigit(rest[0])
    ensures ParseNumber("-" + NatToString(m) + rest) == Some((JNum(-(m as int)), rest))
  {
    var t := NatToString(m) + rest;
    var s := "-" + NatToString(m) + rest;
    DigitsThen(m, rest);
    assert s == "-" + t;
    assert s[0] == '-' && s[1..] == t;
  }

  /** Reading one escaped character and then the rest of a literal. */
  lemma ParseEscapeChar(c: char, x: string)
    ensures ParseStringBody(EscapeChar(c) + x) ==
      match ParseStringBody(x)
      case None => None
      case Some((body, rest)) => Some(([c] + body, rest))
  {
    var e := EscapeChar(c);
    var s := e + x;
    if c as int < 0x20 && c != '\t' && c != '\n' && c != '\r' && c as int != 0x08 && c as int != 0x0C {
      var hi := c as int / 16;
      var lo := c as int % 16;
      HexRoundTrip(hi);
      HexRoundTrip(lo);
      assert s[0] == '\\';
      var u := s[1..];
      assert u == ['u', '0', '0', HexDigit(hi), HexDigit(lo)] + x;
      assert u[5..] == x;
      assert HexValue(u[1]) == 0 && HexValue(u[2]) == 0;
      assert ParseEscape(u) == Some((c, x));
    } else if c == '"' || c == '\\' || c == '\t' || c == '\n' || c == '\r' || c as int == 0x08 || c as int == 0x0C {
      assert s[0] == '\\';
      assert s[1..] == [e[1]] + x;
      assert ParseEscape(s[1..]) == Some((c, x));
    } else {
      assert e == [c];
      assert s[1..] == x;
    }
  }

  lemma {:induction false} ParseQuoted(str: string, rest: string)
    ensures ParseStringBody(EscapeString(str) + "\"" + rest) == Some((str, rest))
  {
    if |str| == 0 {
      assert EscapeString(str) + "\"" + rest == "\"" + rest;
    } else {
      var x := EscapeString(str[1..]) + "\"" + rest;
      assert EscapeString(str) + "\"" + rest == EscapeChar(str[0]) + x;
      ParseQuoted(str[1..], rest);
      ParseEscapeChar(str[0], x);
      assert [str[0]] + str[1..] == str;
    }
  }

  lemma ParseEncodedConstant(v: Json, rest: string)
    requires v.JNull? || v.JBool?
    ensures ParseValue(Encode(v) + rest) == Some((v, rest))
  {
    var s := Encode(v) + rest;
    assert SkipWs(s) == s;
    match v
    case JNull =>
      assert s[..4] == "null" && s[4..] == rest;
    case JBool(b) =>
      if b {
        assert s[..4] == "true" && s[4..] == rest;
      } else {
        assert s[..5] == "false" && s[5..] == rest;
      }
  }

  lemma ParseEncodedString(str: string, rest: string)
    ensures ParseValue(Encode(JStr(str)) + rest) == Some((JStr(str), rest))
  {
    var s := Encode(JStr(str)) + rest;
    assert s == "\"" + (EscapeString(str) + "\"" + rest);
    assert SkipWs(s) == s;
    assert s[1..] == EscapeString(str) + "\"" + rest;
    ParseQuoted(str, rest);
  }

  lemma ParseEncodedScalar(v: Json, rest: string)
    requires !v.JArr? && !v.JObj?
    requires rest == [] || !IsDigit(rest[0])
    ensures ParseValue(Encode(v) + rest) == Some((v, rest))
  {
    match v
    case JNum(n) =>
      var s := Encode(v) + rest;
      EncodeHead(v);
      assert SkipWs(s) == s;
      ParseNumberEncoded(n, rest);
    case JStr(str) =>
      ParseEncodedString(str, rest);
    case _ =>
      ParseEncodedConstant(v, rest);
  }

  /** Parsing the encoding of `v` followed by `rest` reads back `v` and leaves `rest`,
      provided `rest` cannot continue a number. */
  lemma {:induction false} ParseEncoded(v: Json, rest: string)
    requires rest == [] || !IsDigit(rest[0])
    ensures ParseValue(Encode(v) + rest) == Some((v, rest))
    decreases v, 2
  {
    match v
    case JArr(_) => ParseEncodedArray(v, rest);
    case JObj(_) => ParseEncodedObject(v, rest);
    case _ => ParseEncodedScalar(v, rest);
  }

  lemma {:induction false} ParseEncodedArray(v: Json, rest: string)
    requires v.JArr?
    ensures ParseValue(Encode(v) + rest) == Some((v, rest))
    decreases v, 1
  {
    var items := v.items;
    var s := Encode(v) + rest;
    EncodeHead(v);
    assert SkipWs(s) == s;
    var t := s[1..];
    assert t == EncodeItems(items) + "]" + rest;
    if |items| == 0 {
      assert t == "]" + rest;
      assert SkipWs(t) == t;
      assert t[1..] == rest;
    } else {
      EncodeHead(items[0]);
      assert EncodeItems(items)[0] == Encode(items[0])[0];
      assert SkipWs(t) == t;
      ParseEncodedItems(items, rest);
    }
  }

  lemma ParseValueOpenBrace(s: string)
    requires |s| > 0 && s[0] == '{'
    ensures ParseValue(s) == ParseObject(s[1..])
  {
    assert SkipWs(s) == s;
  }

  lemma ParseObjectNonEmpty(t: string)
    requires |t| > 0 && t[0] == '"'
    ensures ParseObject(t) ==
      match ParseMembers(t)
      case None => None
      case Some((fields, rest)) => Some((JObj(fields), rest))
  {
    assert SkipWs(t) == t;
  }

  lemma {:induction false} ParseEncodedObject(v: Json, rest: string)
    requires v.JObj?
    ensures ParseValue(Encode(v) + rest) == Some((v, rest))
    decreases v, 1
  {
    var fields := v.fields;
    if |fields| == 0 {
      ParseEmptyObject(rest);
    } else {
      var s := Encode(v) + rest;
      var t := EncodeFields(fields) + "}" + rest;
      assert s == "{" + t;
      assert s[1..] == t;
      ParseValueOpenBrace(s);
      EncodeFieldsHead(fields);
      assert t[0] == '"';
      ParseObjectNonEmpty(t);
      ParseEncodedFields(fields, rest);
    }
  }

  lemma ParseEmptyObject(rest: string)
    ensures ParseValue(Encode(JObj([])) + rest) == Some((JObj([]), rest))
  {
    var s := Encode(JObj([])) + rest;
    var t := "}" + rest;
    assert s == "{" + t;
    assert s[1..] == t;
    ParseValueOpenBrace(s);
    assert SkipWs(t) == t;
    assert t[1..] == rest;
  }

  /** After a value, the separator or closing bracket is read back. */
  lemma CloseAfter(c: char, rest: string)
    requires !IsWs(c)
    ensures SkipWs([c] + rest) == [c] + rest
    ensures ([c] + rest)[0] == c && ([c] + rest)[1..] == rest
  {
  }

  lemma {:induction false} ParseEncodedItems(items: seq<Json>, rest: string)
    requires |items| >= 1
    ensures ParseElements(EncodeItems(items) + "]" + rest) == Some((items, rest))
    decreases items, 0
  {
    var s := EncodeItems(items) + "]" + rest;
    if |items| == 1 {
      assert s == Encode(items[0]) + ("]" + rest);
      ParseEncoded(items[0], "]" + rest);
      CloseAfter(']', rest);
      assert [items[0]] == items;
    } else {
      var tail := EncodeItems(items[1..]) + "]" + rest;
      assert s == Encode(items[0]) + ("," + tail);
      ParseEncoded(items[0], "," + tail);
      CloseAfter(',', tail);
      ParseEncodedItems(items[1..], rest);
      assert [items[0]] + items[1..] == items;
    }
  }

  lemma {:induction false} ParseEncodedMember(m: (string, Json), rest: string)
    requires rest == [] || !IsDigit(rest[0])
    ensures ParseValue(Encode(m.1) + rest) == Some((m.1, rest))
    decreases m, 0
  {
    ParseEncoded(m.1, rest);
  }

  lemma EncodeFieldsHead(fields: seq<(string, Json)>)
    requires |fields| >= 1
    ensures EncodeFields(fields) ==
      "\"" + EscapeString(fields[0].0) + "\"" + ":" + Encode(fields[0].1) +
      (if |fields| == 1 then "" else "," + EncodeFields(fields[1..]))
  {
  }

  lemma SkipWsNone(s: string)
    requires |s| > 0 && !IsWs(s[0])
    ensures SkipWs(s) == s
  {
  }

  /** The first member of `ParseMembers`: a key, a colon and a value. */
  lemma ParseMembersHead(s: string, key: string, afterKey: string, v: Json, afterValue: string)
    requires |s| > 0 && s[0] == '"'
    requires ParseStringBody(s[1..]) == Some((key, afterKey))
    requires |afterKey| > 0 && afterKey[0] == ':'
    requires ParseValue(afterKey[1..]) == Some((v, afterValue))
    requires |afterValue| > 0 && (afterValue[0] == '}' || afterValue[0] == ',')
    ensures ParseMembers(s) ==
      if afterValue[0] == '}' then Some(([(key, v)], afterValue[1..]))
      else match ParseMembers(afterValue[1..])
        case None => None
        case Some((more, rest)) => Some(([(key, v)] + more, rest))
  {
    SkipWsNone(s);
    SkipWsNone(afterKey);
    SkipWsNone(afterValue);
  }

  lemma ParseMemberThen(key: string, value: Json, after: string)
    requires |after| > 0 && (after[0] == '}' || after[0] == ',')
    requires ParseValue(Encode(value) + after) == Some((value, after))
    ensures ParseMembers(EncodeMember((key, value)) + after) ==
      if after[0] == '}' then Some(([(key, value)], after[1..]))
      else match ParseMembers(after[1..])
        case None => None
        case Some((more, rest)) => Some(([(key, value)] + more, rest))
  {
    var s := EncodeMember((key, value)) + after;
    var u := ":" + (Encode(value) + after);
    MemberLayout(key, value, after);
    ParseQuoted(key, u);
    ParseMembersHead(s, key, u, value, after);
  }

  lemma MemberLayout(key: string, value: Json, after: string)
    ensures var s := EncodeMember((key, value)) + after;
      var u := ":" + (Encode(value) + after);
      && |s| > 0 && s[0] == '"'
      && s[1..] == EscapeString(key) + "\"" + u
      && |u| > 0 && u[0] == ':'
      && u[1..] == Encode(value) + after
  {
    var s := EncodeMember((key, value)) + after;
    var u := ":" + (Encode(value) + after);
    assert s == "\"" + (EscapeString(key) + "\"" + u);
  }

  lemma FieldsLayout(fields: seq<(string, Json)>, rest: string)
    requires |fields| >= 1
    ensures |fields| == 1 ==> EncodeFields(fields) + "}" + rest == EncodeMember(fields[0]) + ("}" + rest)
    ensures |fields| > 1 ==>
      EncodeFields(fields) + "}" + rest == EncodeMember(fields[0]) + ("," + (EncodeFields(fields[1..]) + "}" + rest))
  {
    if |fields| == 1 {
      assert EncodeFields(fields) == EncodeMember(fields[0]);
      ConcatAssoc(EncodeMember(fields[0]), "}", rest);
    } else {
      var m, e := EncodeMember(fields[0]), EncodeFields(fields[1..]);
      assert EncodeFields(fields) == m + "," + e;
      SeparatorAssoc(m, ",", e, "}", rest);
    }
  }

  lemma ConcatAssoc(a: string, b: string, c: string)
    ensures a + b + c == a + (b + c)
  {
  }

  lemma SeparatorAssoc(m: string, sep: string, e: string, close: string, rest: string)
    ensures m + sep + e + close + rest == m + (sep + (e + close + rest))
  {
  }

  lemma {:induction false} ParseEncodedFields(fields: seq<(string, Json)>, rest: string)
    requires |fields| >= 1
    ensures ParseMembers(EncodeFields(fields) + "}" + rest) == Some((fields, rest))
    decreases fields, 0
  {
    if |fields| == 1 {
      var after := "}" + rest;
      FieldsLayout(fields, rest);
      ParseEncodedMember(fields[0], after);
      ParseMemberThen(fields[0].0, fields[0].1, after);
      assert after[1..] == rest;
      assert [(fields[0].0, fields[0].1)] == fields;
    } else {
      var tail := EncodeFields(fields[1..]) + "}" + rest;
      var after := "," + tail;
      FieldsLayout(fields, rest);
      ParseEncodedMember(fields[0], after);
      ParseMemberThen(fields[0].0, fields[0].1, after);
      assert after[1..] == tail;
      ParseEncodedFields(fields[1..], rest);
      assert [(fields[0].0, fields[0].1)] + fields[1..] == fields;
    }
  }

  /** `JSON.parse(JSON.stringify(v) + w)` is `v` for any trailing whitespace `w`,
      such as the newline that ends every frame on the stream. */
  lemma DecodeEncode(v: Json, w: string)
    requires AllWs(w)
    ensures Decode(Encode(v) + w) == Some(v)
  {
    ParseEncoded(v, w);
    SkipWsAllWs(w);
  }

  /** Text without quotes, backslashes or control characters is quoted verbatim. */
  lemma {:induction false} EscapePlain(s: string)
    requires PlainText(s)
    ensures EscapeString(s) == s
  {
    if |s| > 0 {
      EscapePlain(s[1..]);
      assert s == [s[0]] + s[1..];
    }
  }

  /** A surrogate pair escape reads as the one character it encodes, as
      `JSON.parse` reads `"\ud83d\ude00"`; a high surrogate with no low one
      after it is rejected. */
  lemma SurrogatePairEscape(x: string)
    ensures ParseEscape("ud83d\\ude00" + x) == Some((0x1F600 as char, x))
    ensures |x| < 6 ==> ParseEscape("ud83d" + x) == None
  {
    var s := "ud83d\\ude00" + x;
    assert s[1..5] == "d83d" && s[7..11] == "de00" && s[11..] == x;
    assert CodeUnit("d83d") == 0xD83D;
    assert CodeUnit("de00") == 0xDE00;
  }
}
