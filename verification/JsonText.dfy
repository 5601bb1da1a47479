/**
 JSON text over null, booleans, integers, strings, arrays and objects: one printer with
 the styles the repository uses, and a parser that inverts it. Escapes follow section 7
 of RFC 8259.
 */
module JsonText {
  import opened Wrappers

  datatype Json =
    | Null
    | Bool(b: bool)
    | Int(n: int)
    | Str(s: string)
    | Arr(items: seq<Json>)
    | Obj(fields: seq<Field>)

  datatype Field = Field(key: string, value: Json)

  /** `rawKeys`: keys are copied unescaped; `spaced`: a blank follows `,` and `:`;
      `ascii`: everything outside printable ASCII is escaped. */
  datatype Style = Style(rawKeys: bool, spaced: bool, ascii: bool)

  /* ---------- Printing ---------- */

  function HexDigit(d: nat): char
    requires d < 16
  {
    if d < 10 then '0' + d as char else 'a' + (d - 10) as char
  }

  function Hex4(n: nat): string
    requires n < 0x10000
  {
    [HexDigit(n / 4096), HexDigit(n / 256 % 16), HexDigit(n / 16 % 16), HexDigit(n % 16)]
  }

  function UnicodeEscape(n: nat): string
    requires n < 0x10000
  {
    "\\u" + Hex4(n)
  }

  function EscapeChar(c: char, ascii: bool): string {
    if c == '"' then "\\\""
    else if c == '\\' then "\\\\"
    else if c == '\n' then "\\n"
    else if c == '\r' then "\\r"
    else if c == '\t' then "\\t"
    else if c as int == 8 then "\\b"
    else if c as int == 12 then "\\f"
    else if c as int < 0x20 then UnicodeEscape(c as int)
    else if !ascii || c as int < 0x7f then [c]
    else if c as int < 0x10000 then UnicodeEscape(c as int)
    else
      var v := c as int - 0x10000;
      UnicodeEscape(0xD800 + v / 1024) + UnicodeEscape(0xDC00 + v % 1024)
  }

  function Escape(s: string, ascii: bool): string {
    if s == "" then "" else EscapeChar(s[0], ascii) + Escape(s[1..], ascii)
  }

  function Digits(n: nat): string {
    if n < 10 then [HexDigit(n)] else Digits(n / 10) + [HexDigit(n % 10)]
  }

  function Decimal(n: int): string {
    if n < 0 then "-" + Digits(-n) else Digits(n)
  }

  function Gap(st: Style): string {
    if st.spaced then " " else ""
  }

  function KeyText(key: string, st: Style): string {
    if st.rawKeys then key else Escape(key, st.ascii)
  }

  function Text(v: Json, st: Style): string
    decreases v, 0
  {
    match v
    case Null => "null"
    case Bool(b) => if b then "true" else "false"
    case Int(n) => Decimal(n)
    case Str(s) => "\"" + Escape(s, st.ascii) + "\""
    case Arr(items) => "[" + ItemsText(items, st) + "]"
    case Obj(fields) => "{" + FieldsText(fields, st) + "}"
  }

  function ItemsText(items: seq<Json>, st: Style): string
    decreases items, 1
  {
    if items == [] then ""
    else if |items| == 1 then Text(items[0], st)
    else Text(items[0], st) + "," + Gap(st) + ItemsText(items[1..], st)
  }

  function FieldText(f: Field, st: Style): string
    decreases f, 1
  {
    "\"" + KeyText(f.key, st) + "\":" + Gap(st) + Text(f.value, st)
  }

  function FieldsText(fields: seq<Field>, st: Style): string
    decreases fields, 2
  {
    if fields == [] then ""
    else if |fields| == 1 then FieldText(fields[0], st)
    else FieldText(fields[0], st) + "," + Gap(st) + FieldsText(fields[1..], st)
  }

  /* ---------- Parsing ---------- */

  type Parsed<T> = Option<(T, string)>

  function Skip(s: string): (r: string)
    ensures |r| <= |s|
  {
    if s != "" && s[0] in " \n\r\t" then Skip(s[1..]) else s
  }

  predicate IsDigit(c: char) {
    '0' <= c <= '9'
  }

  function HexValue(c: char): (d: Option<nat>)
    ensures d.Some? ==> d.value < 16
  {
    if IsDigit(c) then Some((c - '0') as int)
    else if 'a' <= c <= 'f' then Some((c - 'a') as int + 10)
    else if 'A' <= c <= 'F' then Some((c - 'A') as int + 10)
    else None
  }

  function ParseHex4(s: string): (r: Parsed<nat>)
    ensures r.Some? ==> |r.value.1| == |s| - 4 && r.value.0 < 0x10000
  {
    if |s| < 4 then None
    else
      var a, b, c, d := HexValue(s[0]), HexValue(s[1]), HexValue(s[2]), HexValue(s[3]);
      if a.None? || b.None? || c.None? || d.None? then None
      else Some((((a.value * 16 + b.value) * 16 + c.value) * 16 + d.value, s[4..]))
  }

  /** After `\u`: one code unit, or a surrogate pair; a lone surrogate is no character. */
  function ParseUnicode(s: string): (r: Parsed<char>)
    ensures r.Some? ==> |r.value.1| < |s|
  {
    match ParseHex4(s)
    case None => None
    case Some((hi, rest)) =>
      if 0xD800 <= hi < 0xDC00 then
        if "\\u" <= rest then
          match ParseHex4(rest[2..])
          case None => None
          case Some((lo, after)) =>
            if 0xDC00 <= lo < 0xE000
            then Some(((0x10000 + (hi - 0xD800) * 1024 + (lo - 0xDC00)) as char, after)) else None
        else None
      else if 0xDC00 <= hi < 0xE000 then None
      else Some((hi as char, rest))
  }

  /** The character after a backslash. */
  function ParseEscape(s: string): (r: Parsed<char>)
    ensures r.Some? ==> |r.value.1| < |s|
  {
    if s == "" then None
    else if s[0] in "\"\\/" then Some((s[0], s[1..]))
    else if s[0] == 'n' then Some(('\n', s[1..]))
    else if s[0] == 'r' then Some(('\r', s[1..]))
    else if s[0] == 't' then Some(('\t', s[1..]))
    else if s[0] == 'b' then Some((8 as char, s[1..]))
    else if s[0] == 'f' then Some((12 as char, s[1..]))
    else if s[0] == 'u' then ParseUnicode(s[1..])
    else None
  }

  function Prefixed(c: char, r: Parsed<string>): Parsed<string> {
    if r.None? then None else Some(([c] + r.value.0, r.value.1))
  }

  /** The rest of a string literal, after its opening quote. */
  function ParseString(s: string): (r: Parsed<string>)
    ensures r.Some? ==> |r.value.1| < |s|
    decreases |s|
  {
    if s == "" then None
    else if s[0] == '"' then Some(("", s[1..]))
    else if s[0] == '\\' then
      match ParseEscape(s[1..])
      case None => None
      case Some((c, rest)) => Prefixed(c, ParseString(rest))
    else if s[0] as int < 0x20 then None
    else Prefixed(s[0], ParseString(s[1..]))
  }

  /** A raw key runs up to the first `":`. */
  function ParseRawKey(s: string): (r: Parsed<string>)
    ensures r.Some? ==> |r.value.1| < |s|
  {
    if |s| < 2 then None
    else if s[0] == '"' && s[1] == ':' then Some(("", s[2..]))
    else Prefixed(s[0], ParseRawKey(s[1..]))
  }

  /** A key and the colon after it; the opening quote is already consumed. */
  function ParseKey(s: string, raw: bool): (r: Parsed<string>)
    ensures r.Some? ==> |r.value.1| < |s|
  {
    if raw then ParseRawKey(s)
    else
      match ParseString(s)
      case None => None
      case Some((key, rest)) =>
        var t := Skip(rest);
        if t != "" && t[0] == ':' then Some((key, t[1..])) else None
  }

  function LeadingDigits(s: string): (k: nat)
    ensures k <= |s|
  {
    if s != "" && IsDigit(s[0]) then 1 + LeadingDigits(s[1..]) else 0
  }

  function ValueOf(s: string): nat
    requires forall i :: 0 <= i < |s| ==> IsDigit(s[i])
  {
    if s == "" then 0
    else
      var last := s[|s| - 1];
      assert IsDigit(last);
      10 * ValueOf(s[..|s| - 1]) + (last - '0') as int
  }

  lemma {:induction false} LeadingAreDigits(s: string)
    ensures forall i :: 0 <= i < LeadingDigits(s) ==> IsDigit(s[i])
  {
    if s != "" && IsDigit(s[0]) {
      LeadingAreDigits(s[1..]);
    }
  }

  function ParseNat(s: string): (r: Parsed<nat>)
    ensures r.Some? ==> |r.value.1| < |s|
  {
    LeadingAreDigits(s);
    var k := LeadingDigits(s);
    if k == 0 then None else Some((ValueOf(s[..k]), s[k..]))
  }

  function ParseInt(s: string): (r: Parsed<int>)
    ensures r.Some? ==> |r.value.1| < |s|
  {
    if s != "" && s[0] == '-' then
      match ParseNat(s[1..])
      case None => None
      case Some((n, rest)) =>
        Some((-(n as int), rest))
    else
      match ParseNat(s)
      case None => None
      case Some((n, rest)) => Some((n, rest))
  }

  function ParseValue(source: string, raw: bool): (r: Parsed<Json>)
    ensures r.Some? ==> |r.value.1| < |source|
    decreases |source|, 0
  {
    var s := Skip(source);
    if s == "" then None
    else if s[0] == 'n' then if "null" <= s then Some((Null, s[4..])) else None
    else if s[0] == 't' then if "true" <= s then Some((Bool(true), s[4..])) else None
    else if s[0] == 'f' then if "false" <= s then Some((Bool(false), s[5..])) else None
    else if s[0] == '"' then
      match ParseString(s[1..])
      case None => None
      case Some((text, rest)) => Some((Str(text), rest))
    else if s[0] == '[' then
      var t := Skip(s[1..]);
      if t != "" && t[0] == ']' then Some((Arr([]), t[1..]))
      else
        match ParseItems(s[1..], raw)
        case None => None
        case Some((items, rest)) => Some((Arr(items), rest))
    else if s[0] == '{' then
      var t := Skip(s[1..]);
      if t != "" && t[0] == '}' then Some((Obj([]), t[1..]))
      else
        match ParseFields(s[1..], raw)
        case None => None
        case Some((fields, rest)) => Some((Obj(fields), rest))
    else
      match ParseInt(s)
      case None => None
      case Some((n, rest)) => Some((Int(n), rest))
  }

  function ParseItems(s: string, raw: bool): (r: Parsed<seq<Json>>)
    ensures r.Some? ==> |r.value.1| < |s|
    decreases |s|, 1
  {
    match ParseValue(s, raw)
    case None => None
    case Some((v, rest)) =>
      var t := Skip(rest);
      if t == "" then None
      else if t[0] == ']' then Some(([v], t[1..]))
      else if t[0] == ',' then
        match ParseItems(t[1..], raw)
        case None => None
        case Some((vs, after)) => Some(([v] + vs, after))
      else None
  }

  function ParseField(source: string, raw: bool): (r: Parsed<Field>)
    ensures r.Some? ==> |r.value.1| < |source|
    decreases |source|, 0
  {
    var s := Skip(source);
    if s == "" || s[0] != '"' then None
    else
      match ParseKey(s[1..], raw)
      case None => None
      case Some((key, colon)) =>
        match ParseValue(colon, raw)
        case None => None
        case Some((v, rest)) => Some((Field(key, v), rest))
  }

  function ParseFields(s: string, raw: bool): (r: Parsed<seq<Field>>)
    ensures r.Some? ==> |r.value.1| < |s|
    decreases |s|, 1
  {
    match ParseField(s, raw)
    case None => None
    case Some((f, rest)) =>
      var t := Skip(rest);
      if t == "" then None
      else if t[0] == '}' then Some(([f], t[1..]))
      else if t[0] == ',' then
        match ParseFields(t[1..], raw)
        case None => None
        case Some((fs, after)) => Some(([f] + fs, after))
      else None
  }

  /** A whole document: one value and nothing but blanks after it. */
  function Loads(s: string, raw: bool): Option<Json> {
    match ParseValue(s, raw)
    case None => None
    case Some((v, rest)) => if Skip(rest) == "" then Some(v) else None
  }
}
