/** JSON text for the integer-only `Json` values. `Encode` writes as
    `JSON.stringify` does (no whitespace), with an object's members in the
    order of its member list. `Decode` reads as `JSON.parse` does, except that
    a lone surrogate escape is rejected: a Dafny string holds only scalar
    values. `DecodeEncode` proves the two inverse. */
module JsonText {
  import opened Outcomes
  import opened Decimal
  import opened JsValue

  /** JSON insignificant whitespace. */
  predicate IsWs(c: char) {
    c == ' ' || c == '\t' || c == '\n' || c == '\r'
  }

  predicate AllWs(s: string) {
    forall i | 0 <= i < |s| :: IsWs(s[i])
  }

  /** A character `JSON.stringify` writes unchanged inside a string literal. */
  predicate Literal(c: char) {
    c != '"' && c != '\\' && c as int >= 0x20
  }

  /** Text that `JSON.stringify` would quote without any escape sequence. */
  predicate PlainText(s: string) {
    forall i | 0 <= i < |s| :: Literal(s[i])
  }

  function HexDigit(d: nat): (c: char)
    requires d < 16
  {
    if d < 10 then DigitChar(d) else ('a' as int + d - 10) as char
  }

  predicate IsHex(c: char) {
    IsDigit(c) || 'a' <= c <= 'f' || 'A' <= c <= 'F'
  }

  function HexValue(c: char): (d: nat)
    requires IsHex(c)
    ensures d < 16
  {
    if IsDigit(c) then DigitValue(c)
    else if 'a' <= c <= 'f' then c as int - 'a' as int + 10
    else c as int - 'A' as int + 10
  }

  /** The escape `JSON.stringify` writes for one character of a string. */
  function EscapeChar(c: char): (e: string)
    ensures |e| >= 1
  {
    if c == '"' then "\\\""
    else if c == '\\' then "\\\\"
    else if c as int == 0x08 then "\\b"
    else if c == '\t' then "\\t"
    else if c == '\n' then "\\n"
    else if c as int == 0x0C then "\\f"
    else if c == '\r' then "\\r"
    else if c as int < 0x20 then ['\\', 'u', '0', '0', HexDigit(c as int / 16), HexDigit(c as int % 16)]
    else [c]
  }

  function EscapeString(s: string): string {
    if |s| == 0 then "" else EscapeChar(s[0]) + EscapeString(s[1..])
  }

  function Quote(s: string): string {
    "\"" + EscapeString(s) + "\""
  }

  /** `JSON.stringify(v)`. */
  function Encode(v: Json): (t: string)
    decreases v, 1
  {
    match v
    case JNull => "null"
    case JBool(b) => if b then "true" else "false"
    case JNum(n) => IntToString(n)
    case JStr(s) => Quote(s)
    case JArr(items) => "[" + EncodeItems(items) + "]"
    case JObj(fields) => "{" + EncodeFields(fields) + "}"
  }

  function EncodeItems(items: seq<Json>): string
    decreases items, 0
  {
    if |items| == 0 then ""
    else if |items| == 1 then Encode(items[0])
    else Encode(items[0]) + "," + EncodeItems(items[1..])
  }

  function EncodeMember(m: (string, Json)): string
    decreases m, 0
  {
    Quote(m.0) + ":" + Encode(m.1)
  }

  function EncodeFields(fields: seq<(string, Json)>): string
    decreases fields, 0
  {
    if |fields| == 0 then ""
    else if |fields| == 1 then EncodeMember(fields[0])
    else EncodeMember(fields[0]) + "," + EncodeFields(fields[1..])
  }

  // ---------------------------------------------------------------------
  // Parsing. Every parser returns the value read and the unread rest.
  // ---------------------------------------------------------------------

  function SkipWs(s: string): (r: string)
    ensures |r| <= |s|
    ensures |r| > 0 ==> !IsWs(r[0])
  {
    if |s| > 0 && IsWs(s[0]) then SkipWs(s[1..]) else s
  }

  /** Reads one escape sequence; `s` starts just after the backslash. */
  function ParseEscape(s: string): (r: Option<(char, string)>)
    ensures r.Some? ==> |r.value.1| < |s|
  {
    if |s| == 0 then None
    else if s[0] == '"' then Some(('"', s[1..]))
    else if s[0] == '\\' then Some(('\\', s[1..]))
    else if s[0] == '/' then Some(('/', s[1..]))
    else if s[0] == 'b' then Some((0x08 as char, s[1..]))
    else if s[0] == 'f' then Some((0x0C as char, s[1..]))
    else if s[0] == 'n' then Some(('\n', s[1..]))
    else if s[0] == 'r' then Some(('\r', s[1..]))
    else if s[0] == 't' then Some(('\t', s[1..]))
    else if s[0] == 'u' && |s| >= 5 && IsHex(s[1]) && IsHex(s[2]) && IsHex(s[3]) && IsHex(s[4]) then
      var code := CodeUnit(s[1..5]);
      if code < 0xD800 || code >= 0xE000 then Some((code as char, s[5..]))
      else if code < 0xDC00 && |s| >= 11 && s[5] == '\\' && s[6] == 'u'
        && IsHex(s[7]) && IsHex(s[8]) && IsHex(s[9]) && IsHex(s[10])
        && 0xDC00 <= CodeUnit(s[7..11]) < 0xE000 then
        // a high surrogate followed by a low one: together one character
        Some(((0x10000 + (code - 0xD800) * 0x400 + (CodeUnit(s[7..11]) - 0xDC00)) as char, s[11..]))
      else
        // a lone surrogate code unit is not a character of this model
        None
    else None
  }

  /** The UTF-16 code unit four hex digits spell. */
  function CodeUnit(h: string): (u: nat)
    requires |h| == 4 && IsHex(h[0]) && IsHex(h[1]) && IsHex(h[2]) && IsHex(h[3])
    ensures u < 0x10000
  {
    ((HexValue(h[0]) * 16 + HexValue(h[1])) * 16 + HexValue(h[2])) * 16 + HexValue(h[3])
  }

  /** Reads the body of a string literal; `s` starts just after the opening quote
      and the rest starts just after the closing one. */
  function ParseStringBody(s: string): (r: Option<(string, string)>)
    ensures r.Some? ==> |r.value.1| < |s|
  {
    if |s| == 0 then None
    else if s[0] == '"' then Some(("", s[1..]))
    else if s[0] == '\\' then
      match ParseEscape(s[1..])
      case None => None
      case Some((c, t)) =>
        match ParseStringBody(t)
        case None => None
        case Some((body, rest)) => Some(([c] + body, rest))
    else if s[0] as int < 0x20 then None
    else
      match ParseStringBody(s[1..])
      case None => None
      case Some((body, rest)) => Some(([s[0]] + body, rest))
  }

  /** Length of the run of digits that starts `s`. */
  function DigitRun(s: string): (n: nat)
    ensures n <= |s|
  {
    if |s| > 0 && IsDigit(s[0]) then 1 + DigitRun(s[1..]) else 0
  }

  /** Reads an optionally signed integer without leading zeros. */
  function ParseNumber(s: string): (r: Option<(Json, string)>)
    ensures r.Some? ==> |r.value.1| < |s|
  {
    var neg := |s| > 0 && s[0] == '-';
    var t := if neg then s[1..] else s;
    var k := DigitRun(t);
    match ParseNat(t[..k])
    case None => None
    case Some(m) =>
      var n: int := if neg then 0 - (m as int) else m;
      Some((JNum(n), t[k..]))
  }

  function Keyword(s: string, word: string, v: Json): (r: Option<(Json, string)>)
    requires |word| > 0
    ensures r.Some? ==> |r.value.1| < |s|
  {
    if |word| <= |s| && s[..|word|] == word then Some((v, s[|word|..])) else None
  }

  function ParseValue(s: string): (r: Option<(Json, string)>)
    ensures r.Some? ==> |r.value.1| < |s|
    decreases |s|, 1
  {
    var t := SkipWs(s);
    if |t| == 0 then None
    else if t[0] == 'n' then Keyword(t, "null", JNull)
    else if t[0] == 't' then Keyword(t, "true", JBool(true))
    else if t[0] == 'f' then Keyword(t, "false", JBool(false))
    else if t[0] == '"' then
      match ParseStringBody(t[1..])
      case None => None
      case Some((body, rest)) => Some((JStr(body), rest))
    else if t[0] == '-' || IsDigit(t[0]) then ParseNumber(t)
    else if t[0] == '[' then ParseArray(t[1..])
    else if t[0] == '{' then ParseObject(t[1..])
    else None
  }

  /** `s` starts just after `[`. */
  function ParseArray(s: string): (r: Option<(Json, string)>)
    ensures r.Some? ==> |r.value.1| < |s|
    decreases |s|, 3
  {
    var t := SkipWs(s);
    if |t| > 0 && t[0] == ']' then Some((JArr([]), t[1..]))
    else
      match ParseElements(s)
      case None => None
      case Some((items, rest)) => Some((JArr(items), rest))
  }

  /** One or more comma-separated values and the closing `]`. */
  function ParseElements(s: string): (r: Option<(seq<Json>, string)>)
    ensures r.Some? ==> |r.value.1| < |s|
    decreases |s|, 2
  {
    match ParseValue(s)
    case None => None
    case Some((v, after)) =>
      var u := SkipWs(after);
      if |u| == 0 then None
      else if u[0] == ']' then Some(([v], u[1..]))
      else if u[0] == ',' then
        match ParseElements(u[1..])
        case None => None
        case Some((vs, rest)) => Some(([v] + vs, rest))
      else None
  }

  /** `s` starts just after `{`. */
  function ParseObject(s: string): (r: Option<(Json, string)>)
    ensures r.Some? ==> |r.value.1| < |s|
    decreases |s|, 3
  {
    var t := SkipWs(s);
    if |t| > 0 && t[0] == '}' then Some((JObj([]), t[1..]))
    else
      match ParseMembers(s)
      case None => None
      case Some((fields, rest)) => Some((JObj(fields), rest))
  }

  /** One or more comma-separated `"key":value` members and the closing `}`. */
  function ParseMembers(s: string): (r: Option<(seq<(string, Json)>, string)>)
    ensures r.Some? ==> |r.value.1| < |s|
    decreases |s|, 2
  {
    var t := SkipWs(s);
    if |t| == 0 || t[0] != '"' then None
    else
      match ParseStringBody(t[1..])
      case None => None
      case Some((key, afterKey)) =>
        var u := SkipWs(afterKey);
        if |u| == 0 || u[0] != ':' then None
        else
          match ParseValue(u[1..])
          case None => None
          case Some((v, afterValue)) =>
            var w := SkipWs(afterValue);
            if |w| == 0 then None
            else if w[0] == '}' then Some(([(key, v)], w[1..]))
            else if w[0] == ',' then
              match ParseMembers(w[1..])
              case None => None
              case Some((more, rest)) => Some(([(key, v)] + more, rest))
            else None
  }

  /** `JSON.parse(s)`: one value, surrounded by nothing but whitespace. */
  function Decode(s: string): Option<Json> {
    match ParseValue(s)
    case None => None
    case Some((v, rest)) => if SkipWs(rest) == [] then Some(v) else None
  }
}
