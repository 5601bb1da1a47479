/** What the client reads is what the gateway printed and buffered. */
module StreamingAgreement {
  import opened Wrappers
  import opened JsonText
  import opened JsonRoundTrip
  import opened Streaming

  /* ---------- The printed text is one line of printable ASCII ---------- */

  ghost predicate Printable(s: string) {
    forall i :: 0 <= i < |s| ==> 0x20 <= s[i] as int < 0x7f
  }

  lemma HexPrintable(n: nat)
    requires n < 0x10000
    ensures Printable(UnicodeEscape(n))
  {
    assert forall d: nat :: d < 16 ==> 0x20 <= HexDigit(d) as int < 0x7f;
  }

  lemma EscapeCharPrintable(c: char)
    ensures Printable(EscapeChar(c, true))
  {
    var n := c as int;
    if n < 0x20 || 0x7f <= n < 0x10000 {
      HexPrintable(n);
    } else if n >= 0x10000 {
      HexPrintable(0xD800 + (n - 0x10000) / 1024);
      HexPrintable(0xDC00 + (n - 0x10000) % 1024);
    }
  }

  lemma {:induction false} EscapePrintable(s: string)
    ensures Printable(Escape(s, true))
  {
    if s != "" {
      EscapeCharPrintable(s[0]);
      EscapePrintable(s[1..]);
    }
  }

  lemma {:induction false} DigitsPrintable(n: nat)
    ensures Printable(Digits(n))
  {
    if n >= 10 {
      DigitsPrintable(n / 10);
    }
  }

  lemma {:induction false} TextPrintable(v: Json)
    ensures Printable(Text(v, PY))
    decreases v, 0
  {
    match v
    case Int(n) => DigitsPrintable(if n < 0 then -n else n);
    case Str(s) => EscapePrintable(s);
    case Arr(items) => ItemsPrintable(items);
    case Obj(fields) => FieldsPrintable(fields);
    case Null =>
    case Bool(_) =>
  }

  lemma {:induction false} ItemsPrintable(items: seq<Json>)
    ensures Printable(ItemsText(items, PY))
    decreases items, 1
  {
    if items != [] {
      TextPrintable(items[0]);
      ItemsPrintable(items[1..]);
    }
  }

  lemma FieldPrintable(key: string, value: string)
    requires Printable(key) && Printable(value)
    ensures Printable("\"" + key + "\":" + " " + value)
  {
  }

  lemma {:induction false} FieldsPrintable(fields: seq<Field>)
    ensures Printable(FieldsText(fields, PY))
    decreases fields, 2
  {
    if fields != [] {
      EscapePrintable(fields[0].key);
      TextPrintable(fields[0].value);
      FieldPrintable(Escape(fields[0].key, true), Text(fields[0].value, PY));
      FieldsPrintable(fields[1..]);
    }
  }

  /* ---------- Lines ---------- */

  lemma {:induction false} NewlineAfter(s: string, rest: string)
    requires Printable(s)
    ensures NewlineAt(s + "\n" + rest) == |s|
  {
    if s == "" {
      assert s + "\n" + rest == "\n" + rest;
    } else {
      assert (s + "\n" + rest)[1..] == s[1..] + "\n" + rest;
      NewlineAfter(s[1..], rest);
    }
  }

  lemma LinesStep(s: string, rest: string)
    requires Printable(s)
    ensures Lines(s + "\n" + rest) == [s] + Lines(rest)
  {
    NewlineAfter(s, rest);
    var t := s + "\n" + rest;
    assert t[..|s|] == s && t[|s| + 1..] == rest;
  }

  lemma EventLines(payload: string, rest: string)
    requires Printable(payload)
    ensures Lines("data: " + payload + "\n\n" + rest) == ["data: " + payload, ""] + Lines(rest)
  {
    var line := "data: " + payload;
    assert line + "\n\n" + rest == line + "\n" + ("\n" + rest);
    LinesStep(line, "\n" + rest);
    LinesStep("", rest);
    assert "" + "\n" + rest == "\n" + rest;
  }

  /* ---------- Payloads ---------- */

  lemma {:induction false} AlwaysReadable(v: Json)
    ensures KeysReadable(v, false)
    decreases v
  {
    match v
    case Arr(items) =>
      forall i | 0 <= i < |items| ensures KeysReadable(items[i], false) { AlwaysReadable(items[i]); }
    case Obj(fields) =>
      forall i | 0 <= i < |fields| ensures KeysReadable(fields[i].value, false) { AlwaysReadable(fields[i].value); }
    case _ =>
  }

  lemma StripTight(s: string)
    requires s != "" && s[0] !in " \n\r\t" && s[|s| - 1] !in " \n\r\t"
    ensures Strip(s) == s
  {
  }

  /** A printed object arrives as that object. */
  lemma ObjectArrives(v: Json)
    requires v.Obj?
    ensures ParseLine("data: " + Text(v, PY)) == ReadPayload(v)
  {
    var t := Text(v, PY);
    StripTight(t);
    AlwaysReadable(v);
    LoadsText(v, PY);
    assert ("data: " + t)[6..] == t && "data: " <= "data: " + t;
  }

  predicate Blank(o: Option<string>) {
    o.None? || o.value == ""
  }

  /** The chunk the client should see, written without going through text: a chunk with usage and
      neither content, role nor finish reason has no choice, any other has one. */
  function ClientView(c: Chunk): ClientChunk {
    var bare := c.usage.Some? && Blank(c.content) && Blank(c.role) && Blank(c.finishReason);
    ClientChunk("chatcmpl-" + c.id, c.kind, c.created, c.model,
                if bare then [] else [Choice(0, c.role, c.content, c.finishReason)], c.usage)
  }

  lemma {:induction false} GetAppend(a: seq<Field>, b: seq<Field>, key: string)
    ensures Get(a + b, key) == if Get(b, key).Some? then Get(b, key) else Get(a, key)
  {
    if a == [] {
      assert a + b == b;
    } else {
      assert (a + b)[1..] == a[1..] + b;
      GetAppend(a[1..], b, key);
    }
  }

  lemma GetOne(f: Field, key: string)
    ensures Get([f], key) == if f.key == key then Some(f.value) else None
  {
    assert [f][1..] == [];
  }

  lemma DeltaReads(c: Chunk)
    ensures GetOptional(DeltaJson(c).fields, "role") == Some(c.role)
    ensures GetOptional(DeltaJson(c).fields, "content") == Some(c.content)
  {
    var role := if c.role.Some? then [Field("role", Str(c.role.value))] else [];
    var content := if c.content.Some? then [Field("content", Str(c.content.value))] else [];
    assert DeltaJson(c).fields == role + content;
    GetAppend(role, content, "role");
    GetAppend(role, content, "content");
    if c.role.Some? { GetOne(role[0], "role"); GetOne(role[0], "content"); }
    if c.content.Some? { GetOne(content[0], "role"); GetOne(content[0], "content"); }
    assert "role" != "content" by { assert "role"[0] != "content"[0]; }
  }

  lemma GetThree(a: Field, b: Field, c: Field, key: string)
    requires a.key != b.key && b.key != c.key && a.key != c.key
    ensures Get([a, b, c], key) ==
      if key == a.key then Some(a.value) else if key == b.key then Some(b.value)
      else if key == c.key then Some(c.value) else None
  {
    assert [a, b, c][1..] == [b, c] && [b, c][1..] == [c];
    GetOne(c, key);
  }

  lemma ChoiceReads(c: Chunk)
    ensures DecodeChoice(ChoiceJson(c)) == Some(Choice(0, c.role, c.content, c.finishReason))
  {
    var f, g := Field("index", Int(0)), Field("delta", DeltaJson(c));
    var h := Field("finish_reason", OptionalStr(c.finishReason));
    assert f.key != g.key by { assert f.key[0] != g.key[0]; }
    assert g.key != h.key by { assert g.key[0] != h.key[0]; }
    assert f.key != h.key by { assert f.key[0] != h.key[0]; }
    GetThree(f, g, h, "index");
    GetThree(f, g, h, "delta");
    GetThree(f, g, h, "finish_reason");
    DeltaReads(c);
  }

  lemma UsageReads(u: Usage)
    ensures DecodeUsage(Some(UsageJson(u))) == Some(Some(u))
  {
    var f, g, h := Field("prompt_tokens", Int(u.promptTokens)), Field("completion_tokens", Int(u.completionTokens)),
      Field("total_tokens", Int(u.totalTokens));
    assert f.key != g.key by { assert f.key[0] != g.key[0]; }
    assert g.key != h.key by { assert g.key[0] != h.key[0]; }
    assert f.key != h.key by { assert f.key[0] != h.key[0]; }
    GetThree(f, g, h, "prompt_tokens");
    GetThree(f, g, h, "completion_tokens");
    GetThree(f, g, h, "total_tokens");
  }

  /** The five fields every chunk has, and the one it may have. */
  function Base(c: Chunk): seq<Field> {
    [Field("id", Str("chatcmpl-" + c.id)), Field("object", Str(c.kind)), Field("created", Int(c.created)),
     Field("model", Str(c.model)), Field("choices", Arr(if UsageOnly(c) then [] else [ChoiceJson(c)]))]
  }

  function Extra(c: Chunk): seq<Field> {
    if c.usage.Some? then [Field("usage", UsageJson(c.usage.value))] else []
  }

  lemma BaseReads(c: Chunk)
    ensures Get(Base(c), "id") == Some(Base(c)[0].value) && Get(Base(c), "object") == Some(Base(c)[1].value)
    ensures Get(Base(c), "created") == Some(Base(c)[2].value) && Get(Base(c), "model") == Some(Base(c)[3].value)
    ensures Get(Base(c), "choices") == Some(Base(c)[4].value)
    ensures Get(Base(c), "usage") == None && Get(Base(c), "error") == None
  {
    var b := Base(c);
    var front, back := [b[0], b[1], b[2]], [b[3], b[4]];
    assert b == front + back;
    BackReads(b[3], b[4]);
    FrontReads(front, back, "id");
    FrontReads(front, back, "object");
    FrontReads(front, back, "created");
    FrontReads(front, back, "model");
    FrontReads(front, back, "choices");
    FrontReads(front, back, "usage");
    FrontReads(front, back, "error");
  }

  lemma BackReads(d: Field, e: Field)
    requires d.key != e.key
    ensures forall key :: Get([d, e], key) == if key == e.key then Some(e.value)
        else if key == d.key then Some(d.value) else None
  {
    assert [d, e][1..] == [e];
    assert forall key :: Get([e], key) == if key == e.key then Some(e.value) else None by {
      forall key ensures Get([e], key) == if key == e.key then Some(e.value) else None { GetOne(e, key); }
    }
  }

  lemma FrontReads(front: seq<Field>, back: seq<Field>, key: string)
    requires |front| == 3 && front[0].key != front[1].key && front[1].key != front[2].key &&
        front[0].key != front[2].key
    ensures Get(front + back, key) ==
      if Get(back, key).Some? then Get(back, key)
      else if key == front[0].key then Some(front[0].value)
      else if key == front[1].key then Some(front[1].value)
      else if key == front[2].key then Some(front[2].value)
      else None
  {
    GetAppend(front, back, key);
    assert front == [front[0], front[1], front[2]];
    GetThree(front[0], front[1], front[2], key);
  }

  lemma FieldReads(c: Chunk, key: string)
    ensures Get(Base(c) + Extra(c), key) ==
      if key == "usage" && c.usage.Some? then Some(UsageJson(c.usage.value)) else Get(Base(c), key)
  {
    GetAppend(Base(c), Extra(c), key);
    if c.usage.Some? {
      GetOne(Extra(c)[0], key);
    }
  }

  lemma ChoicesRead(c: Chunk)
    ensures DecodeChoices(if UsageOnly(c) then [] else [ChoiceJson(c)]) == Some(ClientView(c).choices)
  {
    if !UsageOnly(c) {
      ChoiceReads(c);
      assert [ChoiceJson(c)][1..] == [];
      assert [Choice(0, c.role, c.content, c.finishReason)] + [] == [Choice(0, c.role, c.content, c.finishReason)];
    }
  }

  lemma ChunkDecodes(c: Chunk)
    ensures DecodeChunk(Base(c) + Extra(c)) == Some(ClientView(c))
  {
    BaseReads(c);
    FieldReads(c, "id");
    FieldReads(c, "object");
    FieldReads(c, "created");
    FieldReads(c, "model");
    FieldReads(c, "choices");
    FieldReads(c, "usage");
    ChoicesRead(c);
    if c.usage.Some? {
      UsageReads(c.usage.value);
    }
  }

  /** The client decodes a printed chunk to the chunk it should see. */
  lemma ChunkReads(c: Chunk)
    ensures ReadPayload(ChunkJson(c)) == Data(ClientView(c))
  {
    assert ChunkJson(c).fields == Base(c) + Extra(c);
    BaseReads(c);
    FieldReads(c, "error");
    FieldReads(c, "choices");
    ChunkDecodes(c);
  }

  lemma FailureReads(f: Failure)
    ensures ReadPayload(ErrorJson(f)) == Failed(f)
  {
    var a, b, c := Field("type", Str(f.kind)), Field("message", Str(f.message)), Field("code", Int(f.code));
    assert a.key != b.key by { assert a.key[0] != b.key[0]; }
    assert b.key != c.key by { assert b.key[0] != c.key[0]; }
    assert a.key != c.key by { assert a.key[0] != c.key[0]; }
    GetThree(a, b, c, "type");
    GetThree(a, b, c, "message");
    GetThree(a, b, c, "code");
    GetOne(ErrorJson(f).fields[0], "error");
    GetOne(ErrorJson(f).fields[0], "choices");
  }

  /* ---------- The whole stream ---------- */

  /** What the client should receive, in order. */
  function Expected(chunks: seq<Chunk>, ending: Ending): seq<Line> {
    if chunks != [] then [Data(ClientView(chunks[0]))] + Expected(chunks[1..], ending)
    else if ending.Broken? then [Failed(ending.failure)]
    else []
  }

  lemma EventReceived(v: Json, rest: string)
    requires v.Obj?
    ensures var got := Received(Lines(Event(v) + rest));
      match ReadPayload(v)
      case Ignored => true
      case Data(_) => got == [ReadPayload(v)] + Received(Lines(rest))
      case _ => got == [ReadPayload(v)]
  {
    var payload := Text(v, PY);
    TextPrintable(v);
    EventLines(payload, rest);
    ObjectArrives(v);
    ReceivedStep("data: " + payload, Lines(rest));
    assert Event(v) + rest == "data: " + payload + "\n\n" + rest;
  }

  /** An event line and the blank line after it. */
  lemma ReceivedStep(line: string, rest: seq<string>)
    ensures var got := Received([line, ""] + rest);
      match ParseLine(line)
      case Ignored => got == Received(rest)
      case Data(_) => got == [ParseLine(line)] + Received(rest)
      case _ => got == [ParseLine(line)]
  {
    var lines := [line, ""] + rest;
    assert lines[1..] == [""] + rest && lines[1..][1..] == rest;
    assert ParseLine("") == Ignored;
  }

  lemma DoneLines()
    ensures Lines(DONE) == ["data: [DONE]", ""]
  {
    var payload := "[DONE]";
    assert Printable(payload);
    assert DONE == "data: " + payload + "\n\n" + "";
    assert "data: [DONE]" == "data: " + payload;
    EventLines(payload, "");
  }

  lemma DoneIgnored()
    ensures ParseLine("data: [DONE]") == Ignored
  {
    var line := "data: [DONE]";
    assert line[6..] == "[DONE]" && "data: " <= line;
    StripTight("[DONE]");
  }

  lemma DoneReceived()
    ensures Received(Lines(DONE)) == []
  {
    DoneLines();
    DoneIgnored();
    BlankEnds("data: [DONE]");
  }

  lemma BlankEnds(line: string)
    requires ParseLine(line) == Ignored
    ensures Received([line, ""]) == []
  {
    assert [line, ""] + [] == [line, ""];
    ReceivedStep(line, []);
  }

  lemma ClosingReceived(ending: Ending)
    ensures Received(Lines(Closing(ending))) == Expected([], ending)
  {
    DoneReceived();
    match ending
    case Broken(failure) =>
      FailureReads(failure);
      EventReceived(ErrorJson(failure), DONE);
    case _ =>
  }

  /** Every chunk the provider delivered reaches the client, in order and unchanged, and a
      broken stream ends in the gateway's own error. */
  lemma {:induction false} ChunksArrive(chunks: seq<Chunk>, ending: Ending)
    ensures Received(Lines(Sent(chunks, ending))) == Expected(chunks, ending)
  {
    if chunks == [] {
      ClosingReceived(ending);
    } else {
      ChunksArrive(chunks[1..], ending);
      ChunkReads(chunks[0]);
      EventReceived(ChunkJson(chunks[0]), Sent(chunks[1..], ending));
    }
  }

  /* ---------- Agreement ---------- */

  lemma JoinContentsAppend(before: seq<Chunk>, last: Chunk)
    ensures Join(Contents(before + [last])) == Join(Contents(before)) + ContentOf(ClientView(last))
  {
    if !Truthy(last.content) {
      assert Contents(before) + [] == Contents(before);
    }
  }

  lemma Regroup(first: Chunk, front: seq<Chunk>, last: Chunk)
    ensures [first] + (front + [last]) == ([first] + front) + [last]
  {
  }

  lemma Concat(a: string, b: string, c: string)
    ensures (a + b) + c == a + (b + c)
  {
  }

  lemma JoinContentsStep(first: Chunk, front: seq<Chunk>, last: Chunk)
    requires Join(Contents([first] + front)) == ContentOf(ClientView(first)) + Join(Contents(front))
    ensures Join(Contents([first] + (front + [last]))) == ContentOf(ClientView(first)) + Join(Contents(front + [last]))
  {
    Regroup(first, front, last);
    JoinContentsAppend(front, last);
    JoinContentsAppend([first] + front, last);
    Concat(ContentOf(ClientView(first)), Join(Contents(front)), ContentOf(ClientView(last)));
  }

  lemma {:induction false} JoinContents(first: Chunk, rest: seq<Chunk>)
    ensures Join(Contents([first] + rest)) == ContentOf(ClientView(first)) + Join(Contents(rest))
  {
    if rest != [] {
      var front, last := rest[..|rest| - 1], rest[|rest| - 1];
      JoinContents(first, front);
      JoinContentsStep(first, front, last);
      assert front + [last] == rest;
    }
  }

  lemma JoinContentsCons(chunks: seq<Chunk>, text: string)
    requires chunks != []
    ensures text + Join(Contents(chunks)) == (text + ContentOf(ClientView(chunks[0]))) + Join(Contents(chunks[1..]))
  {
    JoinContents(chunks[0], chunks[1..]);
    assert [chunks[0]] + chunks[1..] == chunks;
    Concat(text, ContentOf(ClientView(chunks[0])), Join(Contents(chunks[1..])));
  }

  lemma {:induction false} CollectExpected(chunks: seq<Chunk>, ending: Ending, text: string)
    ensures CollectFrom(Expected(chunks, ending), text) ==
      if ending.Broken? then Raised(ending.failure) else Collected(text + Join(Contents(chunks)))
  {
    var got := Expected(chunks, ending);
    if chunks == [] {
      assert text + "" == text;
    } else {
      assert got[1..] == Expected(chunks[1..], ending);
      CollectExpected(chunks[1..], ending, text + ContentOf(ClientView(chunks[0])));
      JoinContentsCons(chunks, text);
    }
  }

  /** End to end: for every chunk sequence, `collect()` on the text the gateway yielded is
      the content it buffered for replay, which is the tracker's joined buffer; if the
      stream broke, the client raises the very error the gateway buffered. That also holds of
      what was yielded before a client went away or another exception cut the stream. */
  lemma StreamAgreement(chunks: seq<Chunk>, ending: Ending)
    ensures CollectFrom(Received(Lines(Sent(chunks, ending))), "") ==
      match BodyFor(chunks, ending)
      case Completion(content, _) => Collected(content)
      case ErrorEnvelope(error) => Raised(error)
    ensures !ending.Broken? ==> BodyFor(chunks, ending) == Completion(Join(Contents(chunks)), LastFinish(chunks))
  {
    ChunksArrive(chunks, ending);
    CollectExpected(chunks, ending, "");
    assert "" + Join(Contents(chunks)) == Join(Contents(chunks));
  }

  /* ---------- The end marker ---------- */

  ghost predicate EndsWith(s: string, end: string) {
    |end| <= |s| && s[|s| - |end|..] == end
  }

  lemma {:induction false} CutShort(chunks: seq<Chunk>, ending: Ending)
    requires chunks != [] && (ending.Cancelled? || ending.Crashed?)
    ensures EndsWith(Sent(chunks, ending), "}\n\n")
    decreases |chunks|
  {
    if |chunks| == 1 {
      assert Sent(chunks, ending) == ToSse(chunks[0]) + "";
      assert Text(ChunkJson(chunks[0]), PY)[|Text(ChunkJson(chunks[0]), PY)| - 1] == '}';
    } else {
      CutShort(chunks[1..], ending);
    }
  }

  lemma {:induction false} Closed(chunks: seq<Chunk>, ending: Ending)
    requires ending.Finished? || ending.Broken?
    ensures EndsWith(Sent(chunks, ending), "data: [DONE]\n\n")
    decreases |chunks|
  {
    if chunks != [] {
      Closed(chunks[1..], ending);
    }
  }

  /** The text sent ends with the end marker exactly when the stream finished or an error was sent. */
  lemma DoneExactly(chunks: seq<Chunk>, ending: Ending)
    ensures EndsWith(Sent(chunks, ending), "data: [DONE]\n\n") <==> ending.Finished? || ending.Broken?
  {
    if ending.Finished? || ending.Broken? {
      Closed(chunks, ending);
    } else if chunks != [] {
      CutShort(chunks, ending);
      var s := Sent(chunks, ending);
      assert s[|s| - 3..][0] == '}';
      if |s| >= 14 { assert s[|s| - 14..][11] == s[|s| - 3]; }
      assert "data: [DONE]\n\n"[11] == ']';
    }
  }

  /* ---------- What the tracker reports ---------- */

  /** Of several usage reports the tracker keeps the last positive count: that of report `i`, or
      what it began with when there is none (`i` is -1). */
  lemma {:induction false} LatestExactly(counts: seq<int>, initial: int) returns (i: int)
    ensures -1 <= i < |counts|
    ensures Latest(counts, initial) == if i < 0 then initial else counts[i]
    ensures i >= 0 ==> counts[i] > 0
    ensures forall j :: i < j < |counts| ==> counts[j] <= 0
  {
    i := |counts| - 1;
    if counts != [] && counts[i] <= 0 {
      i := LatestExactly(counts[..i], initial);
    }
  }

  /** It keeps the last finish reason that is not blank. */
  lemma {:induction false} LastFinishExactly(chunks: seq<Chunk>) returns (i: int)
    ensures -1 <= i < |chunks|
    ensures LastFinish(chunks) == if i < 0 then None else chunks[i].finishReason
    ensures i >= 0 ==> !Blank(chunks[i].finishReason)
    ensures forall j :: i < j < |chunks| ==> Blank(chunks[j].finishReason)
  {
    i := |chunks| - 1;
    if chunks != [] && Blank(chunks[i].finishReason) {
      i := LastFinishExactly(chunks[..i]);
    }
  }
}
