/** The parser inverts the printer in every style. */
module JsonRoundTrip {
  import opened Wrappers
  import opened JsonText

  /* ---------- Characters and strings ---------- */

  lemma Hex4RoundTrip(n: nat, rest: string)
    requires n < 0x10000
    ensures ParseHex4(Hex4(n) + rest) == Some((n, rest))
  {
    assert (Hex4(n) + rest)[4..] == rest;
    assert n / 256 == n / 4096 * 16 + n / 256 % 16;
    assert n / 16 == n / 256 * 16 + n / 16 % 16;
  }

  lemma UnicodeRoundTrip(n: nat, rest: string)
    requires n < 0xD800 || 0xE000 <= n < 0x10000
    ensures ParseString(UnicodeEscape(n) + rest) == Prefixed(n as char, ParseString(rest))
  {
    var s := UnicodeEscape(n) + rest;
    assert s[1..][1..] == Hex4(n) + rest;
    Hex4RoundTrip(n, rest);
  }

  lemma PairParses(hi: nat, lo: nat, rest: string)
    requires 0xD800 <= hi < 0xDC00 && 0xDC00 <= lo < 0xE000
    ensures ParseUnicode(Hex4(hi) + (UnicodeEscape(lo) + rest))
         == Some(((0x10000 + (hi - 0xD800) * 1024 + (lo - 0xDC00)) as char, rest))
  {
    var low := UnicodeEscape(lo) + rest;
    Hex4RoundTrip(hi, low);
    assert low[2..] == Hex4(lo) + rest;
    Hex4RoundTrip(lo, rest);
  }

  lemma PairRoundTrip(hi: nat, lo: nat, rest: string)
    requires 0xD800 <= hi < 0xDC00 && 0xDC00 <= lo < 0xE000
    ensures ParseString(UnicodeEscape(hi) + UnicodeEscape(lo) + rest)
         == Prefixed((0x10000 + (hi - 0xD800) * 1024 + (lo - 0xDC00)) as char, ParseString(rest))
  {
    var code := Hex4(hi) + (UnicodeEscape(lo) + rest);
    assert UnicodeEscape(hi) + UnicodeEscape(lo) + rest == "\\u" + code;
    PairParses(hi, lo, rest);
  }

  /** The letter that escapes a character, if it has one. */
  function ShortForm(c: char): Option<char> {
    if c == '"' || c == '\\' then Some(c)
    else if c == '\n' then Some('n')
    else if c == '\r' then Some('r')
    else if c == '\t' then Some('t')
    else if c as int == 8 then Some('b')
    else if c as int == 12 then Some('f')
    else None
  }

  lemma AstralRoundTrip(c: char, rest: string)
    requires c as int >= 0x10000
    ensures ParseString(EscapeChar(c, true) + rest) == Prefixed(c, ParseString(rest))
  {
    var v := c as int - 0x10000;
    var hi, lo := 0xD800 + v / 1024, 0xDC00 + v % 1024;
    assert (0x10000 + (hi - 0xD800) * 1024 + (lo - 0xDC00)) as char == c;
    PairRoundTrip(hi, lo, rest);
  }

  lemma ControlPrints(c: char, ascii: bool)
    requires ShortForm(c).None? && (c as int < 0x20 || (ascii && 0x7f <= c as int < 0x10000))
    ensures EscapeChar(c, ascii) == UnicodeEscape(c as int)
  {
  }

  lemma ControlRoundTrip(c: char, ascii: bool, rest: string)
    requires ShortForm(c).None? && (c as int < 0x20 || (ascii && 0x7f <= c as int < 0x10000))
    ensures ParseString(EscapeChar(c, ascii) + rest) == Prefixed(c, ParseString(rest))
  {
    ControlPrints(c, ascii);
    UnicodeRoundTrip(c as int, rest);
  }

  lemma EscapeCharRoundTrip(c: char, ascii: bool, rest: string)
    ensures ParseString(EscapeChar(c, ascii) + rest) == Prefixed(c, ParseString(rest))
  {
    var n := c as int;
    if ShortForm(c).None? && (n < 0x20 || (ascii && 0x7f <= n < 0x10000)) {
      ControlRoundTrip(c, ascii, rest);
    } else if ascii && n >= 0x10000 {
      AstralRoundTrip(c, rest);
    }
  }

  lemma FirstEscaped(a: string, b: string, rest: string)
    ensures a + b + "\"" + rest == a + (b + "\"" + rest)
  {
  }

  lemma {:induction false} StringRoundTrip(s: string, ascii: bool, rest: string)
    ensures ParseString(Escape(s, ascii) + "\"" + rest) == Some((s, rest))
  {
    if s == "" {
      assert (Escape(s, ascii) + "\"" + rest)[1..] == rest;
    } else {
      var tail := Escape(s[1..], ascii) + "\"" + rest;
      FirstEscaped(EscapeChar(s[0], ascii), Escape(s[1..], ascii), rest);
      EscapeCharRoundTrip(s[0], ascii, tail);
      StringRoundTrip(s[1..], ascii, rest);
      assert [s[0]] + s[1..] == s;
    }
  }

  /* ---------- Keys ---------- */

  /** A raw key can be told from its end if it does not contain a quote followed by a colon. */
  ghost predicate Terminated(key: string) {
    forall i :: 0 <= i < |key| - 1 ==> !(key[i] == '"' && key[i + 1] == ':')
  }

  lemma {:induction false} RawKeyRoundTrip(key: string, rest: string)
    requires Terminated(key)
    ensures ParseRawKey(key + "\":" + rest) == Some((key, rest))
  {
    var s := key + "\":" + rest;
    if key == "" {
      assert s[2..] == rest;
    } else {
      assert s[0] == key[0];
      assert s[1] == if |key| == 1 then '"' else key[1];
      assert s[1..] == key[1..] + "\":" + rest;
      RawKeyRoundTrip(key[1..], rest);
      assert [key[0]] + key[1..] == key;
    }
  }

  lemma CookedKeyRoundTrip(key: string, ascii: bool, rest: string)
    ensures ParseKey(Escape(key, ascii) + "\"" + (":" + rest), false) == Some((key, rest))
  {
    StringRoundTrip(key, ascii, ":" + rest);
    assert (":" + rest)[1..] == rest;
  }

  lemma QuoteThenColon(a: string, rest: string)
    ensures a + "\":" + rest == a + "\"" + (":" + rest)
  {
  }

  lemma KeyRoundTrip(key: string, st: Style, rest: string)
    requires st.rawKeys ==> Terminated(key)
    ensures ParseKey(KeyText(key, st) + "\":" + rest, st.rawKeys) == Some((key, rest))
  {
    if st.rawKeys {
      RawKeyRoundTrip(key, rest);
    } else {
      CookedKeyRoundTrip(key, st.ascii, rest);
      QuoteThenColon(Escape(key, st.ascii), rest);
    }
  }

  /* ---------- Numbers ---------- */

  ghost predicate AllDigits(s: string) {
    forall i :: 0 <= i < |s| ==> IsDigit(s[i])
  }

  /** What may follow a value: nothing, or a character that does not extend a number. */
  ghost predicate Stops(rest: string) {
    rest == "" || !IsDigit(rest[0])
  }

  lemma {:induction false} DigitsValue(n: nat)
    ensures Digits(n) != "" && AllDigits(Digits(n)) && ValueOf(Digits(n)) == n
  {
    if n < 10 {
      assert Digits(n)[..0] == "";
    } else {
      DigitsValue(n / 10);
      var s := Digits(n);
      assert s[..|s| - 1] == Digits(n / 10);
    }
  }

  lemma {:induction false} LeadingRun(s: string, rest: string)
    requires AllDigits(s) && Stops(rest)
    ensures LeadingDigits(s + rest) == |s|
  {
    if s == "" {
      assert s + rest == rest;
    } else {
      assert (s + rest)[1..] == s[1..] + rest;
      LeadingRun(s[1..], rest);
    }
  }

  lemma NatRoundTrip(n: nat, rest: string)
    requires Stops(rest)
    ensures ParseNat(Digits(n) + rest) == Some((n, rest))
  {
    DigitsValue(n);
    LeadingRun(Digits(n), rest);
    var s := Digits(n) + rest;
    assert s[..|Digits(n)|] == Digits(n) && s[|Digits(n)|..] == rest;
  }

  lemma NegativeRoundTrip(n: nat, rest: string)
    requires Stops(rest)
    ensures ParseInt("-" + (Digits(n) + rest)) == Some((-(n as int), rest))
  {
    NatRoundTrip(n, rest);
  }

  lemma PositiveRoundTrip(n: nat, rest: string)
    requires Stops(rest)
    ensures ParseInt(Digits(n) + rest) == Some((n, rest))
  {
    NatRoundTrip(n, rest);
    DigitsValue(n);
    assert IsDigit((Digits(n) + rest)[0]);
  }

  lemma IntRoundTrip(n: int, rest: string)
    requires Stops(rest)
    ensures ParseInt(Decimal(n) + rest) == Some((n, rest))
  {
    if n < 0 {
      NegativeRoundTrip(-n, rest);
      assert Decimal(n) + rest == "-" + (Digits(-n) + rest);
    } else {
      PositiveRoundTrip(n, rest);
    }
  }

  /* ---------- Values ---------- */

  ghost predicate KeysReadable(v: Json, raw: bool)
    decreases v
  {
    match v
    case Arr(items) => forall i :: 0 <= i < |items| ==> KeysReadable(items[i], raw)
    case Obj(fields) =>
      forall i :: 0 <= i < |fields| ==> (raw ==> Terminated(fields[i].key)) && KeysReadable(fields[i].value, raw)
    case _ => true
  }

  /** The first character of a printed value decides how it is parsed. */
  ghost predicate StartsValue(c: char) {
    c == '"' || c == '[' || c == '{' || c == 'n' || c == 't' || c == 'f' || c == '-' || IsDigit(c)
  }

  lemma FirstChar(v: Json, st: Style)
    ensures Text(v, st) != "" && StartsValue(Text(v, st)[0])
    ensures v.Int? ==> Text(v, st)[0] == '-' || IsDigit(Text(v, st)[0])
  {
    if v.Int? {
      DigitsValue(if v.n < 0 then -v.n else v.n);
    }
  }

  lemma SkipGap(st: Style, s: string)
    requires s != "" && s[0] !in " \n\r\t"
    ensures Skip(Gap(st) + s) == s
  {
    if st.spaced {
      assert (Gap(st) + s)[1..] == s;
    } else {
      assert Gap(st) + s == s;
    }
  }

  lemma SkippedValue(s: string, raw: bool, st: Style)
    requires s != "" && s[0] !in " \n\r\t"
    ensures ParseValue(Gap(st) + s, raw) == ParseValue(s, raw)
  {
    SkipGap(st, s);
  }

  lemma NumberRoundTrip(n: int, st: Style, rest: string)
    requires Stops(rest)
    ensures ParseValue(Text(Int(n), st) + rest, st.rawKeys) == Some((Int(n), rest))
  {
    var s := Text(Int(n), st) + rest;
    FirstChar(Int(n), st);
    assert s[0] == '-' || IsDigit(s[0]);
    assert Skip(s) == s;
    IntRoundTrip(n, rest);
  }

  lemma LiteralRoundTrip(t: string, st: Style, rest: string)
    ensures ParseValue(Text(Str(t), st) + rest, st.rawKeys) == Some((Str(t), rest))
  {
    var s := Text(Str(t), st) + rest;
    assert s[0] == '"' && s[1..] == Escape(t, st.ascii) + "\"" + rest;
    assert Skip(s) == s;
    StringRoundTrip(t, st.ascii, rest);
  }

  /** An opened bracket whose content starts with a value, and what its items parse to. */
  lemma ArrayStep(body: string, raw: bool)
    requires body != "" && StartsValue(body[0])
    ensures ParseValue("[" + body, raw) ==
      match ParseItems(body, raw)
      case None => None
      case Some((items, rest)) => Some((Arr(items), rest))
  {
    var s := "[" + body;
    assert Skip(s) == s && s[1..] == body && Skip(body) == body;
  }

  lemma ObjectStep(body: string, raw: bool)
    requires body != "" && body[0] == '"'
    ensures ParseValue("{" + body, raw) ==
      match ParseFields(body, raw)
      case None => None
      case Some((fields, rest)) => Some((Obj(fields), rest))
  {
    var s := "{" + body;
    assert Skip(s) == s && s[1..] == body && Skip(body) == body;
  }

  lemma ItemsStep(s: string, raw: bool, v: Json, tail: string)
    requires ParseValue(s, raw) == Some((v, tail)) && tail != ""
    ensures tail[0] == ']' ==> ParseItems(s, raw) == Some(([v], tail[1..]))
    ensures tail[0] == ',' && ParseItems(tail[1..], raw).Some? ==>
      ParseItems(s, raw) == Some(([v] + ParseItems(tail[1..], raw).value.0, ParseItems(tail[1..], raw).value.1))
  {
  }

  lemma FieldsStep(s: string, raw: bool, f: Field, tail: string)
    requires ParseField(s, raw) == Some((f, tail)) && tail != ""
    ensures tail[0] == '}' ==> ParseFields(s, raw) == Some(([f], tail[1..]))
    ensures tail[0] == ',' && ParseFields(tail[1..], raw).Some? ==>
      ParseFields(s, raw) == Some(([f] + ParseFields(tail[1..], raw).value.0, ParseFields(tail[1..], raw).value.1))
  {
  }

  lemma {:induction false} RoundTrip(v: Json, st: Style, rest: string)
    requires KeysReadable(v, st.rawKeys) && Stops(rest)
    ensures ParseValue(Text(v, st) + rest, st.rawKeys) == Some((v, rest))
    decreases v, 0
  {
    match v
    case Arr(items) => ArrRoundTrip(items, st, rest);
    case Obj(fields) => ObjRoundTrip(fields, st, rest);
    case Str(t) => LiteralRoundTrip(t, st, rest);
    case Int(n) => NumberRoundTrip(n, st, rest);
    case Null =>
    case Bool(_) =>
  }

  lemma {:induction false} ArrRoundTrip(items: seq<Json>, st: Style, rest: string)
    requires KeysReadable(Arr(items), st.rawKeys) && Stops(rest)
    ensures ParseValue(Text(Arr(items), st) + rest, st.rawKeys) == Some((Arr(items), rest))
    decreases items, 2
  {
    if items == [] {
      assert Text(Arr(items), st) + rest == "[]" + rest;
    } else {
      var body := ItemsText(items, st) + "]" + rest;
      assert Text(Arr(items), st) + rest == "[" + body;
      ItemsStart(items, st);
      ItemsRoundTrip(items, st, rest);
      ArrayStep(body, st.rawKeys);
    }
  }

  lemma {:induction false} ObjRoundTrip(fields: seq<Field>, st: Style, rest: string)
    requires KeysReadable(Obj(fields), st.rawKeys) && Stops(rest)
    ensures ParseValue(Text(Obj(fields), st) + rest, st.rawKeys) == Some((Obj(fields), rest))
    decreases fields, 3
  {
    if fields == [] {
      assert Text(Obj(fields), st) + rest == "{}" + rest;
    } else {
      var body := FieldsText(fields, st) + "}" + rest;
      assert Text(Obj(fields), st) + rest == "{" + body;
      FieldsStart(fields, st);
      FieldsRoundTrip(fields, st, rest);
      ObjectStep(body, st.rawKeys);
    }
  }

  lemma ItemsStart(items: seq<Json>, st: Style)
    requires items != []
    ensures ItemsText(items, st) != "" && StartsValue(ItemsText(items, st)[0])
  {
    FirstChar(items[0], st);
  }

  lemma FieldsStart(fields: seq<Field>, st: Style)
    requires fields != []
    ensures FieldsText(fields, st) != "" && FieldsText(fields, st)[0] == '"'
  {
    assert FieldText(fields[0], st)[0] == '"';
  }

  lemma {:induction false} ItemsRoundTrip(items: seq<Json>, st: Style, rest: string)
    requires items != [] && KeysReadable(Arr(items), st.rawKeys)
    ensures ParseItems(ItemsText(items, st) + "]" + rest, st.rawKeys) == Some((items, rest))
    decreases items, 1
  {
    var v := items[0];
    if |items| == 1 {
      RoundTrip(v, st, "]" + rest);
      LastItem(v, st, rest);
      LastItemText(items, st, rest);
    } else {
      var more := ItemsText(items[1..], st) + "]" + rest;
      ItemsRoundTrip(items[1..], st, rest);
      RoundTrip(v, st, "," + (Gap(st) + more));
      ItemsStart(items[1..], st);
      ConsItem(v, items[1..], st, more, rest);
      ConsItemText(items, st, rest);
    }
  }

  lemma LastItemText(items: seq<Json>, st: Style, rest: string)
    requires |items| == 1
    ensures ItemsText(items, st) + "]" + rest == Text(items[0], st) + "]" + rest && [items[0]] == items
  {
  }

  lemma ConsItemText(items: seq<Json>, st: Style, rest: string)
    requires |items| > 1
    ensures [items[0]] + items[1..] == items
    ensures ItemsText(items, st) + "]" + rest
         == Text(items[0], st) + ("," + (Gap(st) + (ItemsText(items[1..], st) + "]" + rest)))
  {
  }

  lemma LastItem(v: Json, st: Style, rest: string)
    requires ParseValue(Text(v, st) + ("]" + rest), st.rawKeys) == Some((v, "]" + rest))
    ensures ParseItems(Text(v, st) + "]" + rest, st.rawKeys) == Some(([v], rest))
  {
    assert Text(v, st) + "]" + rest == Text(v, st) + ("]" + rest);
    ItemsStep(Text(v, st) + ("]" + rest), st.rawKeys, v, "]" + rest);
    assert ("]" + rest)[1..] == rest;
  }

  lemma ConsItem(v: Json, vs: seq<Json>, st: Style, more: string, rest: string)
    requires ParseValue(Text(v, st) + ("," + (Gap(st) + more)), st.rawKeys) == Some((v, "," + (Gap(st) + more)))
    requires more != "" && more[0] !in " \n\r\t" && ParseItems(more, st.rawKeys) == Some((vs, rest))
    ensures ParseItems(Text(v, st) + ("," + (Gap(st) + more)), st.rawKeys) == Some(([v] + vs, rest))
  {
    var tail := "," + (Gap(st) + more);
    GapBeforeItems(more, st);
    assert tail[1..] == Gap(st) + more;
    ItemsStep(Text(v, st) + tail, st.rawKeys, v, tail);
  }

  lemma GapBeforeItems(s: string, st: Style)
    requires s != "" && s[0] !in " \n\r\t"
    ensures ParseItems(Gap(st) + s, st.rawKeys) == ParseItems(s, st.rawKeys)
  {
    SkippedValue(s, st.rawKeys, st);
  }

  lemma GapBeforeFields(s: string, st: Style)
    requires s != "" && s[0] !in " \n\r\t"
    ensures ParseFields(Gap(st) + s, st.rawKeys) == ParseFields(s, st.rawKeys)
  {
    SkipGap(st, s);
    assert ParseField(Gap(st) + s, st.rawKeys) == ParseField(s, st.rawKeys);
  }

  lemma DropQuote(q: string, key: string, colon: string, gap: string, value: string, tail: string)
    requires |q| == 1
    ensures (q + key + colon + gap + value + tail)[1..] == key + colon + (gap + value + tail)
  {
  }

  lemma FieldKeyReads(f: Field, st: Style, tail: string)
    requires st.rawKeys ==> Terminated(f.key)
    ensures var s := FieldText(f, st) + tail;
      s[0] == '"' && ParseKey(s[1..], st.rawKeys) == Some((f.key, Gap(st) + Text(f.value, st) + tail))
  {
    DropQuote("\"", KeyText(f.key, st), "\":", Gap(st), Text(f.value, st), tail);
    KeyRoundTrip(f.key, st, Gap(st) + Text(f.value, st) + tail);
  }

  lemma FieldValueReads(v: Json, st: Style, tail: string)
    requires ParseValue(Text(v, st) + tail, st.rawKeys) == Some((v, tail))
    ensures ParseValue(Gap(st) + Text(v, st) + tail, st.rawKeys) == Some((v, tail))
  {
    FirstChar(v, st);
    SkippedValue(Text(v, st) + tail, st.rawKeys, st);
    assert Gap(st) + Text(v, st) + tail == Gap(st) + (Text(v, st) + tail);
  }

  lemma {:induction false} FieldRoundTrip(f: Field, st: Style, tail: string)
    requires (st.rawKeys ==> Terminated(f.key)) && KeysReadable(f.value, st.rawKeys) && Stops(tail)
    ensures ParseField(FieldText(f, st) + tail, st.rawKeys) == Some((f, tail))
    decreases f, 1
  {
    RoundTrip(f.value, st, tail);
    FieldKeyReads(f, st, tail);
    FieldValueReads(f.value, st, tail);
  }

  lemma ConsFields(fields: seq<Field>, st: Style, more: string, rest: string)
    requires |fields| > 1 && more == FieldsText(fields[1..], st) + "}" + rest
    requires ParseFields(more, st.rawKeys) == Some((fields[1..], rest))
    requires ParseField(FieldText(fields[0], st) + ("," + (Gap(st) + more)), st.rawKeys)
          == Some((fields[0], "," + (Gap(st) + more)))
    ensures ParseFields(FieldsText(fields, st) + "}" + rest, st.rawKeys) == Some((fields, rest))
  {
    FieldsStart(fields[1..], st);
    ConsField(fields[0], fields[1..], st, more, rest);
    ConsFieldText(fields, st, rest);
    assert [fields[0]] + fields[1..] == fields;
  }

  lemma {:induction false} FieldsRoundTrip(fields: seq<Field>, st: Style, rest: string)
    requires fields != [] && KeysReadable(Obj(fields), st.rawKeys)
    ensures ParseFields(FieldsText(fields, st) + "}" + rest, st.rawKeys) == Some((fields, rest))
    decreases fields, 2
  {
    if |fields| == 1 {
      FieldRoundTrip(fields[0], st, "}" + rest);
      LastField(fields[0], st, rest);
      LastFieldText(fields, st, rest);
    } else {
      var more := FieldsText(fields[1..], st) + "}" + rest;
      FieldsRoundTrip(fields[1..], st, rest);
      FieldRoundTrip(fields[0], st, "," + (Gap(st) + more));
      ConsFields(fields, st, more, rest);
    }
  }

  lemma LastFieldText(fields: seq<Field>, st: Style, rest: string)
    requires |fields| == 1
    ensures FieldsText(fields, st) + "}" + rest == FieldText(fields[0], st) + "}" + rest && [fields[0]] == fields
  {
  }

  lemma Regroup(a: string, b: string, c: string, d: string, close: string, rest: string)
    ensures a + b + c + d + close + rest == a + (b + (c + (d + close + rest)))
  {
  }

  lemma ConsFieldText(fields: seq<Field>, st: Style, rest: string)
    requires |fields| > 1
    ensures FieldsText(fields, st) + "}" + rest
         == FieldText(fields[0], st) + ("," + (Gap(st) + (FieldsText(fields[1..], st) + "}" + rest)))
  {
    Regroup(FieldText(fields[0], st), ",", Gap(st), FieldsText(fields[1..], st), "}", rest);
  }

  lemma LastField(f: Field, st: Style, rest: string)
    requires ParseField(FieldText(f, st) + ("}" + rest), st.rawKeys) == Some((f, "}" + rest))
    ensures ParseFields(FieldText(f, st) + "}" + rest, st.rawKeys) == Some(([f], rest))
  {
    assert FieldText(f, st) + "}" + rest == FieldText(f, st) + ("}" + rest);
    FieldsStep(FieldText(f, st) + ("}" + rest), st.rawKeys, f, "}" + rest);
    assert ("}" + rest)[1..] == rest;
  }

  lemma ConsField(f: Field, fs: seq<Field>, st: Style, more: string, rest: string)
    requires ParseField(FieldText(f, st) + ("," + (Gap(st) + more)), st.rawKeys) == Some((f, "," + (Gap(st) + more)))
    requires more != "" && more[0] !in " \n\r\t" && ParseFields(more, st.rawKeys) == Some((fs, rest))
    ensures ParseFields(FieldText(f, st) + ("," + (Gap(st) + more)), st.rawKeys) == Some(([f] + fs, rest))
  {
    var tail := "," + (Gap(st) + more);
    GapBeforeFields(more, st);
    assert tail[1..] == Gap(st) + more;
    FieldsStep(FieldText(f, st) + tail, st.rawKeys, f, tail);
  }

  /** Reading back a whole document. */
  lemma LoadsText(v: Json, st: Style)
    requires KeysReadable(v, st.rawKeys)
    ensures Loads(Text(v, st), st.rawKeys) == Some(v)
  {
    RoundTrip(v, st, "");
    assert Text(v, st) + "" == Text(v, st);
  }
}
