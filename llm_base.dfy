/** Message and chunk types of src/llm/base.py, the stream-folding rule of
    `BaseLLM.generate`, `NonStreamingAdapter.stream`, and the
    parts-to-text rendering that both backends carry a copy of. */
module LlmBase {
  import opened Errors
  import opened Text

  datatype PartType = TextType | ToolCallType | ToolResultType

  /** A JSON object, kept opaque: only the serialiser looks inside. */
  type Dict = seq<(string, string)>

  datatype ToolCall = ToolCall(name: string, arguments: Dict)
  datatype ToolResult = ToolResult(name: string, output: Dict)

  /** `MessagePart`: the `type` tag and the three optional payloads are
      independent fields, as in the frozen dataclass. */
  datatype MessagePart = MessagePart(
    kind: PartType,
    text: Option<string>,
    toolCall: Option<ToolCall>,
    toolResult: Option<ToolResult>)

  /** `LLMMessage`; a `None` role is the empty string. */
  datatype LlmMessage = LlmMessage(role: string, parts: seq<MessagePart>)

  /** `LLMChunk` */
  datatype Chunk = Chunk(textDelta: string, isFinal: bool)

  /** How a generator stops once its chunks are exhausted: it returns, or it
      raises. */
  datatype StreamEnd = Done | Raise(error: Error)

  /** Everything a `stream()` generator yields, in order, and how it stops.
      A consumer that breaks at a final chunk never sees `end`. */
  datatype Stream = Stream(chunks: seq<Chunk>, end: StreamEnd)

  /** `getattr(cfg, "backend", None)`, `getattr(cfg, "model", None)` */
  datatype LlmConfig = LlmConfig(backend: Option<string>, model: Option<string>)

  /** `LLMResponse` (usage is never filled in by the core). */
  datatype Response = Response(text: string, backend: Option<string>, model: Option<string>)

  /** The dictionary handed to `json.dumps` for a tool part: `{"type": kind,
      "name": name, key: body}` with key "arguments" or "output". */
  datatype Payload = Payload(kind: string, name: string, key: string, body: Dict)

  /** Index of the first final chunk, or `|chunks|` when there is none. */
  function FinalIndex(chunks: seq<Chunk>): (k: nat)
    ensures k <= |chunks|
    ensures forall j :: 0 <= j < k ==> !chunks[j].isFinal
    ensures k < |chunks| ==> chunks[k].isFinal
  {
    if chunks == [] then 0
    else if chunks[0].isFinal then 0
    else 1 + FinalIndex(chunks[1..])
  }

  /** How many chunks a consumer that breaks at the first final chunk pulls. */
  function Pulled(s: Stream): (n: nat)
    ensures n <= |s.chunks|
  {
    var k := FinalIndex(s.chunks);
    if k < |s.chunks| then k + 1 else k
  }

  function Deltas(chunks: seq<Chunk>): (ds: seq<string>)
    ensures |ds| == |chunks|
    ensures forall i :: 0 <= i < |chunks| ==> ds[i] == chunks[i].textDelta
  {
    seq(|chunks|, i requires 0 <= i < |chunks| => chunks[i].textDelta)
  }

  /** Collecting chunk `i`'s delta (an empty one changes nothing) keeps
      the collected text equal to the deltas read so far. */
  lemma CollectStep(chunks: seq<Chunk>, i: nat, parts: seq<string>)
    requires i < |chunks| && Concat(parts) == Concat(Deltas(chunks[..i]))
    ensures Concat(parts + [chunks[i].textDelta]) == Concat(Deltas(chunks[..i + 1]))
    ensures chunks[i].textDelta == "" ==> Concat(parts) == Concat(Deltas(chunks[..i + 1]))
  {
    DeltasSnoc(chunks, i);
    ConcatSnoc(Deltas(chunks[..i]), chunks[i].textDelta);
    ConcatSnoc(parts, chunks[i].textDelta);
  }

  /** Where the reading loop stands after chunk `i`: a final chunk ends it
      with everything read so far; any other chunk precedes the first final
      one. */
  lemma ReadPast(s: Stream, i: nat)
    requires i < |s.chunks| && i <= FinalIndex(s.chunks)
    ensures s.chunks[i].isFinal ==>
      && FinalIndex(s.chunks) == i && Pulled(s) == i + 1
      && StreamText(s) == Ok(Concat(Deltas(s.chunks[..i + 1])))
    ensures !s.chunks[i].isFinal ==> i < FinalIndex(s.chunks)
  {
  }

  /** Reading one more chunk adds its delta at the end. */
  lemma DeltasSnoc(chunks: seq<Chunk>, i: nat)
    requires i < |chunks|
    ensures Deltas(chunks[..i + 1]) == Deltas(chunks[..i]) + [chunks[i].textDelta]
  {
  }

  /** What the loop `for ch in stream: collect ch.text_delta; if
      ch.is_final: break` produces: the concatenated deltas up to and
      including the first final chunk, or the generator's own exception
      when it raises before any final chunk. */
  function StreamText(s: Stream): Result<string> {
    if FinalIndex(s.chunks) < |s.chunks| || s.end.Done? then
      Ok(Concat(Deltas(s.chunks[..Pulled(s)])))
    else
      Err(s.end.error)
  }

  /** A stream whose chunks end with its first final chunk folds to all of
      its deltas, however the generator would have stopped afterwards. */
  lemma StreamTextClosed(cs: seq<Chunk>, last: string, end: StreamEnd)
    requires forall j :: 0 <= j < |cs| ==> !cs[j].isFinal
    ensures StreamText(Stream(cs + [Chunk(last, true)], end)) == Ok(Concat(Deltas(cs)) + last)
  {
    var s := Stream(cs + [Chunk(last, true)], end);
    assert FinalIndex(s.chunks) == |cs| by {
      assert s.chunks[|cs|].isFinal;
      assert forall j :: 0 <= j < |cs| ==> !s.chunks[j].isFinal;
    }
    assert s.chunks[..Pulled(s)] == s.chunks;
    assert Deltas(s.chunks) == Deltas(cs) + [last];
    ConcatSnoc(Deltas(cs), last);
  }

  /** A stream without a final chunk folds to all of its deltas when the
      generator returns, and to its exception when it raises. */
  lemma StreamTextOpen(cs: seq<Chunk>, end: StreamEnd)
    requires forall j :: 0 <= j < |cs| ==> !cs[j].isFinal
    ensures end.Done? ==> StreamText(Stream(cs, end)) == Ok(Concat(Deltas(cs)))
    ensures end.Raise? ==> StreamText(Stream(cs, end)) == Err(end.error)
  {
    var s := Stream(cs, end);
    assert FinalIndex(cs) == |cs|;
    assert cs[..Pulled(s)] == cs;
  }

  /** Chunks after the first final one are never looked at. */
  lemma StreamTextIgnoresTail(s: Stream, extra: seq<Chunk>, end': StreamEnd)
    requires FinalIndex(s.chunks) < |s.chunks|
    ensures StreamText(Stream(s.chunks + extra, end')) == StreamText(s)
  {
    var k := FinalIndex(s.chunks);
    FinalIndexPrefix(s.chunks, extra);
    assert (s.chunks + extra)[..k + 1] == s.chunks[..k + 1];
  }

  lemma {:induction false} FinalIndexPrefix(chunks: seq<Chunk>, extra: seq<Chunk>)
    requires FinalIndex(chunks) < |chunks|
    ensures FinalIndex(chunks + extra) == FinalIndex(chunks)
  {
    if !chunks[0].isFinal {
      assert (chunks + extra)[1..] == chunks[1..] + extra;
      FinalIndexPrefix(chunks[1..], extra);
    }
  }

  /** The reference meaning of `BaseLLM.generate`: `CancelledError` when
      the token is seen cancelled on arrival of any chunk the loop pulls,
      otherwise the folded text, with `backend` and `model` copied from the
      configuration. `cancelledAt[j]` is the value of `cancel_token is not
      None and cancel_token.is_cancelled()` when chunk `j` arrives. */
  function GenerateResult(cfg: LlmConfig, s: Stream, cancelledAt: seq<bool>): Result<Response>
    requires |cancelledAt| == |s.chunks|
  {
    if exists j :: 0 <= j < Pulled(s) && cancelledAt[j] then Err(Cancelled)
    else match StreamText(s)
      case Ok(t) => Ok(Response(t, cfg.backend, cfg.model))
      case Err(e) => Err(e)
  }

  /** Reaching the first final chunk with the token never seen cancelled:
      `generate` returns the text up to and including that chunk. */
  lemma GenerateStopsAtFinal(cfg: LlmConfig, s: Stream, cancelledAt: seq<bool>, i: nat)
    requires |cancelledAt| == |s.chunks|
    requires i < |s.chunks| && s.chunks[i].isFinal && i <= FinalIndex(s.chunks)
    requires forall j :: 0 <= j <= i ==> !cancelledAt[j]
    ensures GenerateResult(cfg, s, cancelledAt) == Ok(Response(Concat(Deltas(s.chunks[..i + 1])), cfg.backend, cfg.model))
  {
    assert FinalIndex(s.chunks) == i && Pulled(s) == i + 1;
    assert !exists j :: 0 <= j < Pulled(s) && cancelledAt[j];
  }

  /** A stream without a final chunk, with the token never seen cancelled:
      `generate` returns all its text, or raises what the stream raised. */
  lemma GenerateRunsOut(cfg: LlmConfig, s: Stream, cancelledAt: seq<bool>)
    requires |cancelledAt| == |s.chunks|
    requires FinalIndex(s.chunks) == |s.chunks|
    requires forall j :: 0 <= j < |s.chunks| ==> !cancelledAt[j]
    ensures s.end.Done? ==> GenerateResult(cfg, s, cancelledAt) == Ok(Response(Concat(Deltas(s.chunks)), cfg.backend, cfg.model))
    ensures s.end.Raise? ==> GenerateResult(cfg, s, cancelledAt) == Err(s.end.error)
  {
    assert Pulled(s) == |s.chunks|;
    assert s.chunks[..Pulled(s)] == s.chunks;
    assert !exists j :: 0 <= j < Pulled(s) && cancelledAt[j];
  }

  /** `BaseLLM.generate` */
  method Generate(cfg: LlmConfig, s: Stream, cancelledAt: seq<bool>) returns (r: Result<Response>)
    requires |cancelledAt| == |s.chunks|
    ensures r == GenerateResult(cfg, s, cancelledAt)
  {
    var textParts: seq<string> := [];
    var i := 0;
    while i < |s.chunks|
      invariant 0 <= i <= |s.chunks|
      invariant i <= FinalIndex(s.chunks)
      invariant forall j :: 0 <= j < i ==> !cancelledAt[j]
      invariant Concat(textParts) == Concat(Deltas(s.chunks[..i]))
    {
      if cancelledAt[i] {
        return Err(Cancelled);
      }
      var ch := s.chunks[i];
      CollectStep(s.chunks, i, textParts);
      if ch.textDelta != "" {
        textParts := textParts + [ch.textDelta];
      }
      ReadPast(s, i);
      if ch.isFinal {
        GenerateStopsAtFinal(cfg, s, cancelledAt, i);
        return Ok(Response(Concat(textParts), cfg.backend, cfg.model));
      }
      i := i + 1;
    }
    GenerateRunsOut(cfg, s, cancelledAt);
    assert s.chunks[..i] == s.chunks;
    match s.end
    case Done =>
      r := Ok(Response(Concat(textParts), cfg.backend, cfg.model));
    case Raise(e) =>
      r := Err(e);
  }

  /** `NonStreamingAdapter.stream`: check the token, call the blocking
      `generate_once` (its outcome is `once`), check the token again, then
      yield the whole text as one final chunk. */
  function AdapterStream(cancelledBefore: bool, once: Result<string>, cancelledAfter: bool): (s: Stream)
    ensures |s.chunks| <= 1
    ensures s.chunks != [] <==> !cancelledBefore && once.Ok? && !cancelledAfter
    ensures s.chunks != [] ==> s == Stream([Chunk(once.value, true)], Done)
    ensures s.chunks == [] ==> s.end == Raise(if cancelledBefore || once.Ok? then Cancelled else once.error)
  {
    if cancelledBefore then Stream([], Raise(Cancelled))
    else if once.Err? then Stream([], Raise(once.error))
    else if cancelledAfter then Stream([], Raise(Cancelled))
    else Stream([Chunk(once.value, true)], Done)
  }

  /** Folding the adapter's stream with `generate` gives back exactly what
      `generate_once` returned, and a cancellation observed before or
      after the blocking call always surfaces as `CancelledError`. */
  lemma AdapterGenerate(cfg: LlmConfig, cancelledBefore: bool, once: Result<string>, cancelledAfter: bool)
    ensures var s := AdapterStream(cancelledBefore, once, cancelledAfter);
      |s.chunks| == 1 ==> GenerateResult(cfg, s, [false]) == Ok(Response(once.value, cfg.backend, cfg.model))
    ensures var s := AdapterStream(cancelledBefore, once, cancelledAfter);
      s.chunks == [] ==> GenerateResult(cfg, s, []) == Err(
        if cancelledBefore || once.Ok? then Cancelled else once.error)
  {
    var s := AdapterStream(cancelledBefore, once, cancelledAfter);
    if |s.chunks| == 1 {
      assert s == Stream([Chunk(once.value, true)], Done);
      assert FinalIndex(s.chunks) == 0 && Pulled(s) == 1;
      assert !exists j :: 0 <= j < 1 && [false][j];
      assert StreamText(s) == Ok(Concat(Deltas(s.chunks[..1])));
      assert s.chunks[..1] == s.chunks;
      assert Deltas(s.chunks) == [once.value];
      assert Concat([once.value]) == once.value + Concat([]);
      assert Concat([]) == "" && once.value + "" == once.value;
      assert Concat(Deltas(s.chunks[..Pulled(s)])) == once.value;
      assert StreamText(s) == Ok(once.value);
      assert GenerateResult(cfg, s, [false]) == Ok(Response(once.value, cfg.backend, cfg.model));
    }
  }

  /** One part as a line of text: a non-empty text, or the serialised
      tool call or tool result; anything else contributes nothing. */
  function PartLine(p: MessagePart, dumps: Payload -> string): Option<string> {
    if p.kind == TextType && p.text.Some? && p.text.value != "" then
      Some(p.text.value)
    else if p.kind == ToolCallType && p.toolCall.Some? then
      Some(dumps(Payload("tool_call", p.toolCall.value.name, "arguments", p.toolCall.value.arguments)))
    else if p.kind == ToolResultType && p.toolResult.Some? then
      Some(dumps(Payload("tool_result", p.toolResult.value.name, "output", p.toolResult.value.output)))
    else None
  }

  function PartLines(parts: seq<MessagePart>, dumps: Payload -> string): seq<string> {
    if parts == [] then []
    else
      var rest := PartLines(parts[1..], dumps);
      match PartLine(parts[0], dumps)
      case Some(l) => [l] + rest
      case None => rest
  }

  /** Lines come out in the order of the parts: the rendering of a
      concatenation is the concatenation of the renderings. */
  lemma {:induction false} PartLinesAppend(a: seq<MessagePart>, b: seq<MessagePart>, dumps: Payload -> string)
    ensures PartLines(a + b, dumps) == PartLines(a, dumps) + PartLines(b, dumps)
  {
    if a == [] {
      assert a + b == b;
    } else {
      assert (a + b)[0] == a[0];
      assert (a + b)[1..] == a[1..] + b;
      PartLinesAppend(a[1..], b, dumps);
    }
  }

  /** `_parts_to_text`: the lines joined with newlines, then stripped. */
  function PartsToText(parts: seq<MessagePart>, dumps: Payload -> string): (r: string)
    ensures r == [] <==> AllSpace(Join(PartLines(parts, dumps), "\n"))
    ensures r == [] || (!IsSpace(r[0]) && !IsSpace(r[|r| - 1]))
  {
    Strip(Join(PartLines(parts, dumps), "\n"))
  }

  /** `(m.role or "").strip().lower()` */
  function NormalRole(role: string): string {
    Lower(Strip(role))
  }

  /** "User" normalises to "user". */
  lemma NormalRoleUser()
    ensures NormalRole("User") == "user"
  {
    assert Strip("User") == "User" by { StripNoOp("User"); }
    LowerUser();
  }

  lemma LowerUser()
    ensures Lower("User") == "user"
  {
    var l := Lower("User");
    assert l[0] == LowerChar('U') == 'u';
  }
}
