/**
 The streaming path: the gateway prints chunks as server-sent events while it buffers
 their content, and the Python SDK reads the lines back and joins them.
 */
module Streaming {
  import opened Wrappers
  import opened JsonText

  datatype Usage = Usage(promptTokens: int, completionTokens: int, totalTokens: int)

  datatype Chunk = Chunk(
    id: string, model: string, role: Option<string>, content: Option<string>,
    finishReason: Option<string>, usage: Option<Usage>, kind: string, created: int)

  /** `json.dumps` with its defaults. */
  const PY := Style(false, true, true)

  /** Python truth of an optional string. */
  predicate Truthy(o: Option<string>) {
    o.Some? && o.value != ""
  }

  /* ---------- The gateway: printing ---------- */

  function OptionalStr(o: Option<string>): Json {
    match o
    case None => Null
    case Some(s) => Str(s)
  }

  function DeltaJson(c: Chunk): Json {
    Obj((if c.role.Some? then [Field("role", Str(c.role.value))] else [])
        + (if c.content.Some? then [Field("content", Str(c.content.value))] else []))
  }

  function ChoiceJson(c: Chunk): Json {
    Obj([Field("index", Int(0)), Field("delta", DeltaJson(c)), Field("finish_reason", OptionalStr(c.finishReason))])
  }

  /** A chunk that carries usage and nothing else is sent without choices. */
  predicate UsageOnly(c: Chunk) {
    c.usage.Some? && !Truthy(c.content) && !Truthy(c.role) && !Truthy(c.finishReason)
  }

  function UsageJson(u: Usage): Json {
    Obj([Field("prompt_tokens", Int(u.promptTokens)), Field("completion_tokens", Int(u.completionTokens)),
         Field("total_tokens", Int(u.totalTokens))])
  }

  function ChunkJson(c: Chunk): Json {
    Obj([Field("id", Str("chatcmpl-" + c.id)), Field("object", Str(c.kind)), Field("created", Int(c.created)),
         Field("model", Str(c.model)), Field("choices", Arr(if UsageOnly(c) then [] else [ChoiceJson(c)]))]
        + (if c.usage.Some? then [Field("usage", UsageJson(c.usage.value))] else []))
  }

  function Event(v: Json): string {
    "data: " + Text(v, PY) + "\n\n"
  }

  function ToSse(c: Chunk): string {
    Event(ChunkJson(c))
  }

  const DONE := "data: [DONE]\n\n"

  datatype Failure = Failure(kind: string, message: string, code: int)

  function ErrorJson(f: Failure): Json {
    Obj([Field("error",
               Obj([Field("type", Str(f.kind)), Field("message", Str(f.message)), Field("code", Int(f.code))]))])
  }

  /** How a stream stops: the provider is done, a provider or HTTP error breaks it, the client
      goes away, or another exception escapes. */
  datatype Ending = Finished | Broken(failure: Failure) | Cancelled | Crashed

  /** Everything sent for a stream that delivered `chunks` and then stopped. */
  function Sent(chunks: seq<Chunk>, ending: Ending): string {
    if chunks != [] then ToSse(chunks[0]) + Sent(chunks[1..], ending)
    else Closing(ending)
  }

  /** The error event, if there is one to send, and the end marker. */
  function Closing(ending: Ending): string {
    match ending
    case Finished => DONE
    case Broken(failure) => Event(ErrorJson(failure)) + DONE
    case _ => ""
  }

  /** The non-empty contents, in order. */
  function Contents(chunks: seq<Chunk>): seq<string> {
    if chunks == [] then []
    else Contents(chunks[..|chunks| - 1])
         + (if Truthy(chunks[|chunks| - 1].content) then [chunks[|chunks| - 1].content.value] else [])
  }

  function Join(parts: seq<string>): string {
    if parts == [] then "" else Join(parts[..|parts| - 1]) + parts[|parts| - 1]
  }

  function LastFinish(chunks: seq<Chunk>): Option<string> {
    if chunks == [] then None
    else if Truthy(chunks[|chunks| - 1].finishReason) then chunks[|chunks| - 1].finishReason
    else LastFinish(chunks[..|chunks| - 1])
  }

  /* ---------- The gateway: usage tracking ---------- */

  /** The latest positive count of a sequence of usage reports, or what was there before. */
  function Latest(counts: seq<int>, initial: int): int {
    if counts == [] then initial
    else if counts[|counts| - 1] > 0 then counts[|counts| - 1]
    else Latest(counts[..|counts| - 1], initial)
  }

  function Prompts(chunks: seq<Chunk>): seq<int> {
    if chunks == [] then []
    else Prompts(chunks[..|chunks| - 1])
         + (if chunks[|chunks| - 1].usage.Some? then [chunks[|chunks| - 1].usage.value.promptTokens] else [])
  }

  function Completions(chunks: seq<Chunk>): seq<int> {
    if chunks == [] then []
    else Completions(chunks[..|chunks| - 1])
         + (if chunks[|chunks| - 1].usage.Some? then [chunks[|chunks| - 1].usage.value.completionTokens] else [])
  }

  predicate Reported(chunks: seq<Chunk>) {
    exists i :: 0 <= i < |chunks| && chunks[i].usage.Some?
  }

  lemma CountsAppend(before: seq<Chunk>, c: Chunk, initialPrompt: int)
    ensures var after := before + [c];
      && Latest(Prompts(after), initialPrompt) ==
           (if c.usage.Some? && c.usage.value.promptTokens > 0 then c.usage.value.promptTokens
            else Latest(Prompts(before), initialPrompt))
      && Latest(Completions(after), 0) ==
           (if c.usage.Some? && c.usage.value.completionTokens > 0 then c.usage.value.completionTokens
            else Latest(Completions(before), 0))
  {
    var after := before + [c];
    assert after[..|after| - 1] == before && after[|after| - 1] == c;
    var p, q := Prompts(before), Completions(before);
    if c.usage.Some? {
      assert (p + [c.usage.value.promptTokens])[..|p|] == p;
      assert (q + [c.usage.value.completionTokens])[..|q|] == q;
    } else {
      assert p + [] == p && q + [] == q;
    }
  }

  class StreamUsageTracker {
    var promptTokens: int
    var completionTokens: int
    var chunksReceived: nat
    var contentBuffer: seq<string>
    var finishReason: Option<string>
    var providerReportedUsage: bool

    /** The tracker has seen exactly `chunks`. */
    ghost predicate Tracks(chunks: seq<Chunk>, initialPrompt: int)
      reads this
    {
      && chunksReceived == |chunks|
      && contentBuffer == Contents(chunks)
      && finishReason == LastFinish(chunks)
      && promptTokens == Latest(Prompts(chunks), initialPrompt)
      && completionTokens == Latest(Completions(chunks), 0)
      && providerReportedUsage == Reported(chunks)
    }

    constructor (promptTokens: int)
      ensures Tracks([], promptTokens)
    {
      this.promptTokens, completionTokens, chunksReceived := promptTokens, 0, 0;
      contentBuffer, finishReason, providerReportedUsage := [], None, false;
    }

    /** One more chunk of the stream `all`. */
    method Update(chunk: Chunk, ghost all: seq<Chunk>, ghost initialPrompt: int)
      requires chunksReceived < |all| && all[chunksReceived] == chunk
      requires Tracks(all[..chunksReceived], initialPrompt)
      modifies this
      ensures chunksReceived == old(chunksReceived) + 1
      ensures Tracks(all[..chunksReceived], initialPrompt)
    {
      ghost var before := all[..chunksReceived];
      assert before + [chunk] == all[..chunksReceived + 1];
      CountsAppend(before, chunk, initialPrompt);
      chunksReceived := chunksReceived + 1;
      if Truthy(chunk.content) {
        contentBuffer := contentBuffer + [chunk.content.value];
      }
      if Truthy(chunk.finishReason) {
        finishReason := chunk.finishReason;
      }
      if chunk.usage.Some? {
        var usage := chunk.usage.value;
        if usage.promptTokens > 0 {
          promptTokens := usage.promptTokens;
        }
        if usage.completionTokens > 0 {
          completionTokens := usage.completionTokens;
        }
        providerReportedUsage := true;
      }
    }

    /** Reported usage if there is any, otherwise a quarter token per character, at least one. */
    method Finalize(ghost chunks: seq<Chunk>, ghost initialPrompt: int)
      returns (usage: Usage, finish: string)
      requires Tracks(chunks, initialPrompt)
      modifies this
      ensures usage.totalTokens == usage.promptTokens + usage.completionTokens
      ensures usage.promptTokens == Latest(Prompts(chunks), initialPrompt)
      ensures usage.completionTokens ==
        if Reported(chunks) then Latest(Completions(chunks), 0)
        else if Join(Contents(chunks)) == "" then 0
        else if |Join(Contents(chunks))| < 8 then 1
        else |Join(Contents(chunks))| / 4
      ensures finish == if LastFinish(chunks).Some? then LastFinish(chunks).value else "unknown"
    {
      if !providerReportedUsage {
        var content := JoinAll(contentBuffer);
        completionTokens := if content != "" then (if |content| / 4 > 1 then |content| / 4 else 1) else 0;
      }
      usage := Usage(promptTokens, completionTokens, promptTokens + completionTokens);
      finish := if Truthy(finishReason) then finishReason.value else "unknown";
      LastFinishTruthy(chunks);
    }
  }

  lemma {:induction false} LastFinishTruthy(chunks: seq<Chunk>)
    ensures LastFinish(chunks).Some? ==> LastFinish(chunks).value != ""
  {
    if chunks != [] {
      LastFinishTruthy(chunks[..|chunks| - 1]);
    }
  }

  /** `"".join(parts)`. */
  method JoinAll(parts: seq<string>) returns (s: string)
    ensures s == Join(parts)
  {
    s := "";
    for i := 0 to |parts|
      invariant s == Join(parts[..i])
    {
      assert parts[..i + 1][..i] == parts[..i];
      s := s + parts[i];
    }
    assert parts[..|parts|] == parts;
  }

  /** After `i` chunks: what was yielded, and the replay body buffered so far. */
  ghost predicate Streamed(chunks: seq<Chunk>, i: nat, ending: Ending,
                           yielded: string, content: string, finish: Option<string>) {
    && i <= |chunks|
    && yielded + Sent(chunks[i..], ending) == Sent(chunks, ending)
    && content == Join(Contents(chunks[..i]))
    && finish == LastFinish(chunks[..i])
  }

  lemma StreamedStep(chunks: seq<Chunk>, i: nat, ending: Ending,
                     yielded: string, content: string, finish: Option<string>)
    requires i < |chunks| && Streamed(chunks, i, ending, yielded, content, finish)
    ensures var c := chunks[i];
      Streamed(chunks, i + 1, ending, yielded + ToSse(c),
               if Truthy(c.content) then content + c.content.value else content,
               if Truthy(c.finishReason) then c.finishReason else finish)
  {
    var c := chunks[i];
    assert chunks[..i] + [c] == chunks[..i + 1];
    if !Truthy(c.content) {
      assert Contents(chunks[..i]) + [] == Contents(chunks[..i]);
    }
  }

  lemma StreamedEnd(chunks: seq<Chunk>, ending: Ending, yielded: string, content: string, finish: Option<string>)
    requires Streamed(chunks, |chunks|, ending, yielded, content, finish)
    ensures yielded + Closing(ending) == Sent(chunks, ending)
    ensures content == Join(Contents(chunks)) && finish == LastFinish(chunks)
  {
    assert chunks[..|chunks|] == chunks && chunks[|chunks|..] == [];
  }

  /** The response body the gateway stores for replay. */
  datatype Buffered =
    | Completion(content: string, finishReason: Option<string>)
    | ErrorEnvelope(error: Failure)

  function BodyFor(chunks: seq<Chunk>, ending: Ending): Buffered {
    match ending
    case Broken(f) => ErrorEnvelope(f)
    case _ => Completion(Join(Contents(chunks)), LastFinish(chunks))
  }

  /** The generator of the streaming endpoint: what it yields, the body it buffers, and the
      status and code it settles with, whichever way the stream stops. */
  method StreamResponse(chunks: seq<Chunk>, ending: Ending, tracker: StreamUsageTracker)
    returns (yielded: string, buffered: Buffered, status: string, code: int)
    requires tracker.Tracks([], 0)
    modifies tracker
    ensures yielded == Sent(chunks, ending)
    ensures buffered == BodyFor(chunks, ending)
    ensures tracker.Tracks(chunks, 0)
    ensures status == "completed" <==> ending.Finished?
    ensures status == "partial" <==> ending.Cancelled?
    ensures status == "failed" <==> ending.Broken? || ending.Crashed?
    ensures code == if ending.Finished? then 200 else 500
  {
    yielded := "";
    var content, finish := "", None;
    for i := 0 to |chunks|
      invariant Streamed(chunks, i, ending, yielded, content, finish)
      invariant tracker.Tracks(chunks[..i], 0)
    {
      var chunk := chunks[i];
      StreamedStep(chunks, i, ending, yielded, content, finish);
      tracker.Update(chunk, chunks, 0);
      if Truthy(chunk.content) {
        content := content + chunk.content.value;
      }
      if Truthy(chunk.finishReason) {
        finish := chunk.finishReason;
      }
      yielded := yielded + ToSse(chunk);
    }
    StreamedEnd(chunks, ending, yielded, content, finish);
    assert chunks[..|chunks|] == chunks;
    status, buffered := "completed", Completion(content, finish);
    match ending {
      case Finished =>
        yielded := yielded + DONE;
      case Broken(f) =>
        status, buffered := "failed", ErrorEnvelope(f);
        yielded := yielded + (Event(ErrorJson(f)) + DONE);
      case Cancelled =>
        status := "partial";
      case Crashed =>
        status := "failed";
    }
    assert "completed"[0] != "failed"[0] && "completed"[0] != "partial"[0] && "failed"[0] != "partial"[0];
    code := if ending.Finished? then 200 else 500;
  }

  /* ---------- The client: reading ---------- */

  datatype Choice = Choice(index: int, role: Option<string>, content: Option<string>, finishReason: Option<string>)

  datatype ClientChunk = ClientChunk(
    id: string, kind: string, created: int, model: string, choices: seq<Choice>, usage: Option<Usage>)

  datatype Line =
    | Ignored
    | Data(chunk: ClientChunk)
    | Failed(failure: Failure)
    | Invalid

  function NewlineAt(s: string): (k: nat)
    ensures k <= |s|
  {
    if s == "" || s[0] == '\n' then 0 else 1 + NewlineAt(s[1..])
  }

  /** The lines the transport hands over. */
  function Lines(s: string): seq<string>
    decreases |s|
  {
    if s == "" then []
    else
      var k := NewlineAt(s);
      if k == |s| then [s] else [s[..k]] + Lines(s[k + 1..])
  }

  function StripRight(s: string): string {
    if s != "" && s[|s| - 1] in " \n\r\t" then StripRight(s[..|s| - 1]) else s
  }

  function Strip(s: string): string {
    StripRight(Skip(s))
  }

  /** Dictionary lookup; a repeated key reads as its last value. */
  function Get(fields: seq<Field>, key: string): Option<Json> {
    if fields == [] then None
    else
      var later := Get(fields[1..], key);
      if later.Some? then later
      else if fields[0].key == key then Some(fields[0].value)
      else None
  }

  function GetStr(fields: seq<Field>, key: string): Option<string> {
    match Get(fields, key)
    case Some(Str(s)) => Some(s)
    case _ => None
  }

  function GetInt(fields: seq<Field>, key: string): Option<int> {
    match Get(fields, key)
    case Some(Int(n)) => Some(n)
    case _ => None
  }

  /** An optional string field: absent and null are the same. */
  function GetOptional(fields: seq<Field>, key: string): Option<Option<string>> {
    match Get(fields, key)
    case None => Some(None)
    case Some(Null) => Some(None)
    case Some(Str(s)) => Some(Some(s))
    case _ => None
  }

  function DecodeChoice(v: Json): Option<Choice> {
    if !v.Obj? then None
    else
      var index := GetInt(v.fields, "index");
      var finish := GetOptional(v.fields, "finish_reason");
      match Get(v.fields, "delta")
      case Some(Obj(delta)) =>
        var role, content := GetOptional(delta, "role"), GetOptional(delta, "content");
        if index.Some? && finish.Some? && role.Some? && content.Some?
        then Some(Choice(index.value, role.value, content.value, finish.value)) else None
      case _ => None
  }

  function DecodeChoices(items: seq<Json>): Option<seq<Choice>> {
    if items == [] then Some([])
    else
      var first, rest := DecodeChoice(items[0]), DecodeChoices(items[1..]);
      if first.Some? && rest.Some? then Some([first.value] + rest.value) else None
  }

  function DecodeUsage(o: Option<Json>): Option<Option<Usage>> {
    match o
    case None => Some(None)
    case Some(Null) => Some(None)
    case Some(Obj(f)) =>
      var p, c, t := GetInt(f, "prompt_tokens"), GetInt(f, "completion_tokens"), GetInt(f, "total_tokens");
      if p.Some? && c.Some? && t.Some? then Some(Some(Usage(p.value, c.value, t.value))) else None
    case _ => None
  }

  /** `StreamChunk.model_validate`. */
  function DecodeChunk(fields: seq<Field>): Option<ClientChunk> {
    var id, created, model := GetStr(fields, "id"), GetInt(fields, "created"), GetStr(fields, "model");
    var kind := if Get(fields, "object").None? then Some("chat.completion.chunk") else GetStr(fields, "object");
    var usage := DecodeUsage(Get(fields, "usage"));
    match Get(fields, "choices")
    case Some(Arr(items)) =>
      var choices := DecodeChoices(items);
      if id.Some? && created.Some? && model.Some? && kind.Some? && usage.Some? && choices.Some?
      then Some(ClientChunk(id.value, kind.value, created.value, model.value, choices.value, usage.value)) else None
    case _ => None
  }

  function ReadFailure(v: Json): Failure {
    if v.Obj? then
      var kind, message, code := GetStr(v.fields, "type"), GetStr(v.fields, "message"), GetInt(v.fields, "code");
      Failure(if kind.Some? then kind.value else "stream_error",
              if message.Some? then message.value else "Stream error",
              if code.Some? then code.value else 0)
    else Failure("stream_error", "Stream error", 0)
  }

  function ReadPayload(v: Json): Line {
    if !v.Obj? then Invalid
    else if Get(v.fields, "error").Some? && Get(v.fields, "choices").None? then
      Failed(ReadFailure(Get(v.fields, "error").value))
    else
      match DecodeChunk(v.fields)
      case None => Invalid
      case Some(chunk) => Data(chunk)
  }

  /** `_parse_sse_line`. */
  function ParseLine(line: string): Line {
    if !("data: " <= line) then Ignored
    else
      var payload := Strip(line[6..]);
      if payload == "[DONE]" then Ignored
      else
        match Loads(payload, false)
        case None => Ignored
        case Some(v) => ReadPayload(v)
  }

  datatype Outcome =
    | Collected(text: string)
    | Raised(failure: Failure)
    | ValidationError

  /** The lines from `i` on that are not ignored, up to and including the first error. */
  function Received(lines: seq<string>): seq<Line> {
    if lines == [] then []
    else
      match ParseLine(lines[0])
      case Ignored => Received(lines[1..])
      case Data(_) => [ParseLine(lines[0])] + Received(lines[1..])
      case _ => [ParseLine(lines[0])]
  }

  function ContentOf(c: ClientChunk): string {
    if c.choices != [] && c.choices[0].content.Some? then c.choices[0].content.value else ""
  }

  function CollectFrom(got: seq<Line>, text: string): Outcome {
    if got == [] then Collected(text)
    else
      match got[0]
      case Data(c) => CollectFrom(got[1..], text + ContentOf(c))
      case Failed(f) => Raised(f)
      case _ => ValidationError
  }

  datatype Item = Got(chunk: ClientChunk) | Stop | Error(failure: Failure) | Unreadable

  /** The SDK's iterator over the transport's lines. */
  class Stream {
    const lines: seq<string>
    var next: nat
    var exhausted: bool

    ghost predicate Valid()
      reads this
    {
      next <= |lines| && (exhausted ==> next == |lines|)
    }

    constructor (lines: seq<string>)
      ensures Valid() && this.lines == lines && next == 0
    {
      this.lines := lines;
      next, exhausted := 0, false;
    }

    method Next() returns (item: Item)
      requires Valid()
      modifies this
      ensures Valid() && next >= old(next)
      ensures var got := Received(lines[old(next)..]);
        match item
        case Stop => got == [] && exhausted && next == |lines|
        case Got(c) => next > old(next) && got == [Data(c)] + Received(lines[next..])
        case Error(f) => got == [Failed(f)]
        case Unreadable => got == [Invalid]
    {
      while next < |lines|
        invariant old(next) <= next <= |lines|
        invariant exhausted == old(exhausted)
        invariant Received(lines[next..]) == Received(lines[old(next)..])
      {
        var line := lines[next];
        assert lines[next..][0] == line && lines[next..][1..] == lines[next + 1..];
        next := next + 1;
        match ParseLine(line) {
          case Ignored =>
          case Data(c) => return Got(c);
          case Failed(f) => return Error(f);
          case Invalid => return Unreadable;
        }
      }
      exhausted := true;
      return Stop;
    }

    method Collect() returns (outcome: Outcome)
      requires Valid()
      modifies this
      ensures Valid()
      ensures outcome == CollectFrom(Received(lines[old(next)..]), "")
    {
      var text := "";
      while true
        invariant Valid()
        invariant CollectFrom(Received(lines[next..]), text) == CollectFrom(Received(lines[old(next)..]), "")
        decreases |lines| - next
      {
        ghost var got := Received(lines[next..]);
        var item := Next();
        match item {
          case Stop => return Collected(text);
          case Got(c) =>
            assert got[1..] == Received(lines[next..]);
            if c.choices != [] && c.choices[0].content.Some? && c.choices[0].content.value != "" {
              text := text + c.choices[0].content.value;
            } else {
              assert text + ContentOf(c) == text;
            }
          case Error(f) => return Raised(f);
          case Unreadable => return ValidationError;
        }
      }
    }
  }
}
