/** The Gemini backend (src/llm/Gemini/model.py): constructor checks, the
    reconstruction of text deltas from an SDK that may send cumulative or
    incremental text, and the two ways a conversation is presented to the
    SDK (structured contents, or one flat prompt). */
module Gemini {
  import opened Errors
  import opened Text
  import opened LlmBase

  /** The fields of `GeminiConfig` that the core reads; `None` is "". */
  datatype GeminiConfig = GeminiConfig(apiKey: string, model: string)

  /** `GeminiLLM.__init__`: the API key is checked before the model name. */
  function CheckConfig(cfg: GeminiConfig): (r: Result<GeminiConfig>)
    ensures r.Ok? <==> cfg.apiKey != "" && cfg.model != ""
    ensures r.Ok? ==> r.value == cfg
    ensures cfg.apiKey == "" ==> r == Err(Value("GeminiLLM requires cfg.api_key"))
    ensures cfg.apiKey != "" && cfg.model == "" ==> r == Err(Value("GeminiLLM requires cfg.model"))
  {
    if cfg.apiKey == "" then Err(Value("GeminiLLM requires cfg.api_key"))
    else if cfg.model == "" then Err(Value("GeminiLLM requires cfg.model"))
    else Ok(cfg)
  }

  // ---------------------------------------------------------------------
  // Delta reconstruction in `stream`

  /** One non-empty piece from the SDK: when it extends everything seen so
      far it is taken as cumulative and only its new suffix is the delta;
      otherwise it is itself the delta. Returns (delta, new accumulated). */
  function Reconstruct(accumulated: string, piece: string): (r: (string, string))
    ensures r.1 == accumulated + r.0
    ensures accumulated != "" && StartsWith(piece, accumulated) ==> r.1 == piece
    ensures !(accumulated != "" && StartsWith(piece, accumulated)) ==> r.0 == piece
  {
    if accumulated != "" && StartsWith(piece, accumulated) then
      (piece[|accumulated|..], piece)
    else
      (piece, accumulated + piece)
  }

  /** The chunks yielded for the SDK pieces received so far (an absent text
      is ""), and the accumulated text: empty pieces and empty deltas yield
      nothing. */
  function Fold(pieces: seq<string>): (seq<Chunk>, string) {
    if pieces == [] then ([], "")
    else
      var prev := Fold(pieces[..|pieces| - 1]);
      var piece := pieces[|pieces| - 1];
      if piece == "" then prev
      else
        var r := Reconstruct(prev.1, piece);
        (if r.0 == "" then prev.0 else prev.0 + [Chunk(r.0, false)], r.1)
  }

  /** The loop keeps `accumulated` equal to the concatenation of every delta
      yielded so far, and yields only non-empty, non-final chunks. */
  lemma {:induction false} FoldAccumulates(pieces: seq<string>)
    ensures Concat(Deltas(Fold(pieces).0)) == Fold(pieces).1
    ensures forall i :: 0 <= i < |Fold(pieces).0| ==> Fold(pieces).0[i].textDelta != "" && !Fold(pieces).0[i].isFinal
  {
    if pieces != [] {
      var init := pieces[..|pieces| - 1];
      FoldAccumulates(init);
      var prev := Fold(init);
      var piece := pieces[|pieces| - 1];
      if piece != "" {
        var r := Reconstruct(prev.1, piece);
        if r.0 != "" {
          assert Deltas(prev.0 + [Chunk(r.0, false)]) == Deltas(prev.0) + [r.0];
          ConcatSnoc(Deltas(prev.0), r.0);
        } else {
          assert r.1 == prev.1;
        }
      }
    }
  }

  /** Each piece extends the one before it: an SDK that sends the whole text
      so far every time. */
  predicate Cumulative(pieces: seq<string>) {
    forall i :: 0 < i < |pieces| ==> StartsWith(pieces[i], pieces[i - 1])
  }

  /** With a cumulative SDK the yielded deltas add up to its last piece. */
  lemma {:induction false} FoldCumulative(pieces: seq<string>)
    requires pieces != [] && Cumulative(pieces)
    ensures Fold(pieces).1 == pieces[|pieces| - 1]
    ensures Concat(Deltas(Fold(pieces).0)) == pieces[|pieces| - 1]
  {
    FoldAccumulates(pieces);
    var init := pieces[..|pieces| - 1];
    var piece := pieces[|pieces| - 1];
    if init != [] {
      assert Cumulative(init) by {
        forall i | 0 < i < |init| ensures StartsWith(init[i], init[i - 1]) {
          assert init[i] == pieces[i] && init[i - 1] == pieces[i - 1];
        }
      }
      FoldCumulative(init);
      assert StartsWith(piece, init[|init| - 1]);
    }
  }

  /** With an incremental SDK the yielded deltas add up to the pieces
      joined, unless some piece happens to start with all the text so far:
      a reply "ha" followed by the increment "ha!" reads as the cumulative
      text "ha!", and the first "ha" is not repeated. */
  lemma IncrementalEchoIsMisread()
    ensures Fold(["ha", "ha!"]).1 == "ha!"
    ensures Concat(["ha", "ha!"]) != Fold(["ha", "ha!"]).1
  {
    assert ["ha", "ha!"][..1] == ["ha"];
    assert ["ha"][..0] == [];
    assert StartsWith("ha!", "ha");
    assert Concat(["ha", "ha!"]) == "ha" + Concat(["ha!"]);
    assert Concat(["ha!"]) == "ha!" + Concat([]);
    assert |Concat(["ha", "ha!"])| == 5;
  }

  /** What `stream` yields, as written. `cancelPoint` numbers the token
      checks: 0 is the check on entry, `i + 1` the check when SDK piece `i`
      arrives, `|pieces| + 1` the check in `finally`; the token is seen
      cancelled from check `cancelPoint` on (never, when it is larger).
      `sdkEnd` is how the SDK's own iterator stops after `pieces`. The
      closing final chunk is yielded in `finally`, also while an SDK error
      is on its way out. */
  function StreamSpec(pieces: seq<string>, sdkEnd: StreamEnd, cancelPoint: nat): Stream {
    if cancelPoint == 0 then Stream([], Raise(Cancelled))
    else if cancelPoint <= |pieces| then Stream(Fold(pieces[..cancelPoint - 1]).0, Raise(Cancelled))
    else if cancelPoint == |pieces| + 1 then Stream(Fold(pieces).0, sdkEnd)
    else Stream(Fold(pieces).0 + [Chunk("", true)], sdkEnd)
  }

  /** The generator body of `stream` (both the structured and the prompt
      path run this loop). */
  method StreamPieces(pieces: seq<string>, sdkEnd: StreamEnd, cancelPoint: nat) returns (s: Stream)
    ensures s == StreamSpec(pieces, sdkEnd, cancelPoint)
  {
    if cancelPoint == 0 {
      return Stream([], Raise(Cancelled));
    }
    var accumulated := "";
    var out: seq<Chunk> := [];
    var i := 0;
    while i < |pieces|
      invariant 0 <= i <= |pieces| && i < cancelPoint
      invariant (out, accumulated) == Fold(pieces[..i])
    {
      if i + 1 >= cancelPoint {
        return Stream(out, Raise(Cancelled));
      }
      var piece := pieces[i];
      assert pieces[..i + 1][..i] == pieces[..i];
      if piece != "" {
        var delta;
        if accumulated != "" && StartsWith(piece, accumulated) {
          delta := piece[|accumulated|..];
          accumulated := piece;
        } else {
          delta := piece;
          accumulated := accumulated + delta;
        }
        if delta != "" {
          out := out + [Chunk(delta, false)];
        }
      }
      i := i + 1;
    }
    assert pieces[..i] == pieces;
    if |pieces| + 1 < cancelPoint {
      out := out + [Chunk("", true)];
    }
    s := Stream(out, sdkEnd);
  }

  /** Cancellation seen before or during the SDK loop ends the stream with
      `CancelledError` and no final chunk, so a consumer gets the error. */
  lemma StreamCancelled(pieces: seq<string>, sdkEnd: StreamEnd, cancelPoint: nat)
    requires cancelPoint <= |pieces|
    ensures var s := StreamSpec(pieces, sdkEnd, cancelPoint);
      && FinalIndex(s.chunks) == |s.chunks|
      && StreamText(s) == Err(Cancelled)
  {
    var s := StreamSpec(pieces, sdkEnd, cancelPoint);
    if cancelPoint > 0 {
      FoldAccumulates(pieces[..cancelPoint - 1]);
    }
    assert forall j :: 0 <= j < |s.chunks| ==> !s.chunks[j].isFinal;
  }

  /** As written, an SDK error after some text is invisible to a consumer
      that stops at the final chunk: the fold yields the partial text as a
      normal reply. */
  lemma StreamHidesSdkError(pieces: seq<string>, e: Error, cancelPoint: nat)
    requires cancelPoint > |pieces| + 1
    ensures StreamText(StreamSpec(pieces, Raise(e), cancelPoint)) == Ok(Fold(pieces).1)
  {
    var cs := Fold(pieces).0;
    FoldAccumulates(pieces);
    assert StreamSpec(pieces, Raise(e), cancelPoint) == Stream(cs + [Chunk("", true)], Raise(e));
    StreamTextClosed(cs, "", Raise(e));
    assert Concat(Deltas(cs)) + "" == Fold(pieces).1;
  }

  /** The same through `generate`: with the token never cancelled, an SDK
      error after some text comes back as a successful response holding the
      partial text. */
  lemma GenerateHidesSdkError(cfg: LlmConfig, pieces: seq<string>, e: Error, cancelledAt: seq<bool>)
    requires |cancelledAt| == |StreamSpec(pieces, Raise(e), |pieces| + 2).chunks|
    requires forall j :: 0 <= j < |cancelledAt| ==> !cancelledAt[j]
    ensures GenerateResult(cfg, StreamSpec(pieces, Raise(e), |pieces| + 2), cancelledAt)
      == Ok(Response(Fold(pieces).1, cfg.backend, cfg.model))
  {
    var s := StreamSpec(pieces, Raise(e), |pieces| + 2);
    StreamHidesSdkError(pieces, e, |pieces| + 2);
    assert !exists j :: 0 <= j < Pulled(s) && cancelledAt[j];
  }

  /** `stream` with the closing chunk yielded only after the SDK iterator
      finished normally, so that an SDK error propagates. */
  function StreamSpecFixed(pieces: seq<string>, sdkEnd: StreamEnd, cancelPoint: nat): Stream {
    if cancelPoint == 0 then Stream([], Raise(Cancelled))
    else if cancelPoint <= |pieces| then Stream(Fold(pieces[..cancelPoint - 1]).0, Raise(Cancelled))
    else if cancelPoint == |pieces| + 1 || sdkEnd.Raise? then Stream(Fold(pieces).0, sdkEnd)
    else Stream(Fold(pieces).0 + [Chunk("", true)], sdkEnd)
  }

  /** The corrected stream reports every SDK error and, on success, folds to
      the accumulated text exactly as before. */
  lemma StreamFixedReportsSdkError(pieces: seq<string>, sdkEnd: StreamEnd, cancelPoint: nat)
    requires cancelPoint > |pieces| + 1
    ensures sdkEnd.Raise? ==> StreamText(StreamSpecFixed(pieces, sdkEnd, cancelPoint)) == Err(sdkEnd.error)
    ensures sdkEnd.Done? ==> StreamSpecFixed(pieces, sdkEnd, cancelPoint) == StreamSpec(pieces, sdkEnd, cancelPoint)
    ensures sdkEnd.Done? ==> StreamText(StreamSpecFixed(pieces, sdkEnd, cancelPoint)) == Ok(Fold(pieces).1)
  {
    var cs := Fold(pieces).0;
    FoldAccumulates(pieces);
    if sdkEnd.Raise? {
      assert StreamSpecFixed(pieces, sdkEnd, cancelPoint) == Stream(cs, sdkEnd);
      StreamTextOpen(cs, sdkEnd);
    } else {
      assert StreamSpecFixed(pieces, sdkEnd, cancelPoint) == Stream(cs + [Chunk("", true)], sdkEnd);
      StreamTextClosed(cs, "", sdkEnd);
      assert Concat(Deltas(cs)) + "" == Fold(pieces).1;
    }
  }

  // ---------------------------------------------------------------------
  // Parts for the SDK

  /** The SDK's `types.Part` as the core builds it. */
  datatype SdkPart = TextPart(text: string) | FunctionCall(name: string, args: Dict) | FunctionResponse(name: string, response: Dict)

  /** Whether `types.Part.from_function_call` / `from_function_response`
      exist in the installed SDK. */
  datatype SdkFactories = SdkFactories(fromFunctionCall: bool, fromFunctionResponse: bool)

  /** One part of `_parts_to_parts`: tool parts use the SDK factory when it
      exists and fall back to their serialised text. */
  function PartToSdk(p: MessagePart, f: SdkFactories, dumps: Payload -> string): (r: Option<SdkPart>)
    ensures r.Some? <==> PartLine(p, dumps).Some?
    ensures r.Some? && r.value.TextPart? ==> r.value.text == PartLine(p, dumps).value
    ensures r.Some? && !r.value.TextPart? ==> p.kind != TextType
  {
    if p.kind == TextType && p.text.Some? && p.text.value != "" then
      Some(TextPart(p.text.value))
    else if p.kind == ToolCallType && p.toolCall.Some? then
      if f.fromFunctionCall then Some(FunctionCall(p.toolCall.value.name, p.toolCall.value.arguments))
      else Some(TextPart(dumps(Payload("tool_call", p.toolCall.value.name, "arguments", p.toolCall.value.arguments))))
    else if p.kind == ToolResultType && p.toolResult.Some? then
      if f.fromFunctionResponse then Some(FunctionResponse(p.toolResult.value.name, p.toolResult.value.output))
      else Some(TextPart(dumps(Payload("tool_result", p.toolResult.value.name, "output", p.toolResult.value.output))))
    else None
  }

  /** `_parts_to_parts` */
  function PartsToSdk(parts: seq<MessagePart>, f: SdkFactories, dumps: Payload -> string): seq<SdkPart> {
    if parts == [] then []
    else
      var rest := PartsToSdk(parts[1..], f, dumps);
      match PartToSdk(parts[0], f, dumps)
      case Some(q) => [q] + rest
      case None => rest
  }

  function TextParts(lines: seq<string>): (r: seq<SdkPart>)
    ensures |r| == |lines|
  {
    seq(|lines|, i requires 0 <= i < |lines| => TextPart(lines[i]))
  }

  /** `_parts_to_parts` keeps the same parts as `_parts_to_text`, in the
      same order; without the SDK factories it is exactly the text lines. */
  lemma {:induction false} PartsToSdkMatchesLines(parts: seq<MessagePart>, f: SdkFactories, dumps: Payload -> string)
    ensures |PartsToSdk(parts, f, dumps)| == |PartLines(parts, dumps)|
    ensures !f.fromFunctionCall && !f.fromFunctionResponse ==>
      PartsToSdk(parts, f, dumps) == TextParts(PartLines(parts, dumps))
  {
    if parts != [] {
      PartsToSdkMatchesLines(parts[1..], f, dumps);
      var rest := PartLines(parts[1..], dumps);
      if PartLine(parts[0], dumps).Some? && !f.fromFunctionCall && !f.fromFunctionResponse {
        assert TextParts([PartLine(parts[0], dumps).value] + rest)
          == [TextPart(PartLine(parts[0], dumps).value)] + TextParts(rest);
      }
    }
  }

  // ---------------------------------------------------------------------
  // Structured contents

  datatype ContentRole = UserRole | ModelRole

  /** `types.UserContent` / `types.ModelContent` */
  datatype Content = Content(role: ContentRole, parts: seq<SdkPart>)

  /** The content one message contributes: none when it has no convertible
      part or is a system message; a model content for an assistant
      message; a user content for every other role. */
  function MessageContent(m: LlmMessage, f: SdkFactories, dumps: Payload -> string): (r: Option<Content>)
    ensures r.Some? <==> PartsToSdk(m.parts, f, dumps) != [] && NormalRole(m.role) != "system"
    ensures r.Some? ==> r.value.parts == PartsToSdk(m.parts, f, dumps)
    ensures r.Some? ==> (r.value.role == ModelRole <==> NormalRole(m.role) == "assistant")
  {
    var parts := PartsToSdk(m.parts, f, dumps);
    var role := NormalRole(m.role);
    if parts == [] || role == "system" then None
    else if role == "assistant" then Some(Content(ModelRole, parts))
    else Some(Content(UserRole, parts))
  }

  /** The system line one message contributes: its rendered text, when it
      is a system message with a convertible part. */
  function SystemLine(m: LlmMessage, f: SdkFactories, dumps: Payload -> string): (r: Option<string>)
    ensures r.Some? <==> PartsToSdk(m.parts, f, dumps) != [] && NormalRole(m.role) == "system"
    ensures r.Some? ==> r.value == PartsToText(m.parts, dumps)
    ensures r.Some? <==> MessageContent(m, f, dumps).None? && PartsToSdk(m.parts, f, dumps) != []
  {
    if PartsToSdk(m.parts, f, dumps) != [] && NormalRole(m.role) == "system" then
      Some(PartsToText(m.parts, dumps))
    else None
  }

  function ContentsOf(msgs: seq<LlmMessage>, f: SdkFactories, dumps: Payload -> string): seq<Content> {
    if msgs == [] then []
    else
      var rest := ContentsOf(msgs[1..], f, dumps);
      match MessageContent(msgs[0], f, dumps)
      case Some(c) => [c] + rest
      case None => rest
  }

  function SystemLines(msgs: seq<LlmMessage>, f: SdkFactories, dumps: Payload -> string): seq<string> {
    if msgs == [] then []
    else
      var rest := SystemLines(msgs[1..], f, dumps);
      match SystemLine(msgs[0], f, dumps)
      case Some(l) => [l] + rest
      case None => rest
  }

  /** `_messages_to_contents`: the system instruction and the contents. */
  function MessagesToContents(msgs: seq<LlmMessage>, f: SdkFactories, dumps: Payload -> string): (string, seq<Content>) {
    (Strip(Join(SystemLines(msgs, f, dumps), "\n\n")), ContentsOf(msgs, f, dumps))
  }

  /** Contents come out in message order: converting a concatenation
      concatenates the conversions. */
  lemma {:induction false} ContentsOfAppend(a: seq<LlmMessage>, b: seq<LlmMessage>, f: SdkFactories, dumps: Payload -> string)
    ensures ContentsOf(a + b, f, dumps) == ContentsOf(a, f, dumps) + ContentsOf(b, f, dumps)
  {
    if a == [] {
      assert a + b == b;
    } else {
      assert (a + b)[0] == a[0];
      assert (a + b)[1..] == a[1..] + b;
      ContentsOfAppend(a[1..], b, f, dumps);
      match MessageContent(a[0], f, dumps)
      case Some(c) => AppendAssoc([c], ContentsOf(a[1..], f, dumps), ContentsOf(b, f, dumps));
      case None =>
    }
  }

  /** System lines come out in message order too. */
  lemma {:induction false} SystemLinesAppend(a: seq<LlmMessage>, b: seq<LlmMessage>, f: SdkFactories, dumps: Payload -> string)
    ensures SystemLines(a + b, f, dumps) == SystemLines(a, f, dumps) + SystemLines(b, f, dumps)
  {
    if a == [] {
      assert a + b == b;
    } else {
      assert (a + b)[0] == a[0];
      assert (a + b)[1..] == a[1..] + b;
      SystemLinesAppend(a[1..], b, f, dumps);
      match SystemLine(a[0], f, dumps)
      case Some(l) => AppendAssoc([l], SystemLines(a[1..], f, dumps), SystemLines(b, f, dumps));
      case None =>
    }
  }

  /** Every message with a convertible part lands in exactly one of the two
      outputs, and a message without one in neither. */
  lemma {:induction false} MessagesToContentsCount(msgs: seq<LlmMessage>, f: SdkFactories, dumps: Payload -> string)
    ensures |ContentsOf(msgs, f, dumps)| + |SystemLines(msgs, f, dumps)| == |ConvertibleIndices(msgs, f, dumps)|
  {
    if msgs != [] {
      MessagesToContentsCount(msgs[1..], f, dumps);
      ConvertibleIndicesShift(msgs, f, dumps);
    }
  }

  /** Indices of the messages that have a convertible part. */
  function ConvertibleIndices(msgs: seq<LlmMessage>, f: SdkFactories, dumps: Payload -> string): seq<nat> {
    if msgs == [] then []
    else
      var rest := seq(|ConvertibleIndices(msgs[1..], f, dumps)|,
        i requires 0 <= i < |ConvertibleIndices(msgs[1..], f, dumps)| => ConvertibleIndices(msgs[1..], f, dumps)[i] + 1);
      if PartsToSdk(msgs[0].parts, f, dumps) != [] then [0] + rest else rest
  }

  lemma ConvertibleIndicesShift(msgs: seq<LlmMessage>, f: SdkFactories, dumps: Payload -> string)
    requires msgs != []
    ensures |ConvertibleIndices(msgs, f, dumps)| ==
      |ConvertibleIndices(msgs[1..], f, dumps)| + (if PartsToSdk(msgs[0].parts, f, dumps) != [] then 1 else 0)
  {
  }

  /** Without a system message there is no system instruction. */
  lemma NoSystemInstruction(msgs: seq<LlmMessage>, f: SdkFactories, dumps: Payload -> string)
    requires SystemLines(msgs, f, dumps) == []
    ensures MessagesToContents(msgs, f, dumps).0 == ""
  {
    assert Join([], "\n\n") == "";
    assert AllSpace("");
  }

  // ---------------------------------------------------------------------
  // Flat prompt

  /** The header for a role, compared as written (not normalised). */
  function RoleHeader(role: string): Option<string> {
    if role == "system" then Some("[System]")
    else if role == "user" then Some("[User]")
    else if role == "assistant" then Some("[Assistant]")
    else if role == "tool" then Some("[Tool]")
    else None
  }

  /** The block one message contributes to the prompt. */
  function PromptBlock(m: LlmMessage, dumps: Payload -> string): (r: Option<string>)
    ensures r.Some? <==> PartsToText(m.parts, dumps) != "" && RoleHeader(m.role).Some?
    ensures r.Some? ==> r.value == RoleHeader(m.role).value + "\n" + PartsToText(m.parts, dumps)
  {
    var text := PartsToText(m.parts, dumps);
    if text == "" then None
    else match RoleHeader(m.role)
      case Some(h) => Some(h + "\n" + text)
      case None => None
  }

  function PromptBlocks(msgs: seq<LlmMessage>, dumps: Payload -> string): seq<string> {
    if msgs == [] then []
    else
      var rest := PromptBlocks(msgs[1..], dumps);
      match PromptBlock(msgs[0], dumps)
      case Some(b) => [b] + rest
      case None => rest
  }

  const AssistantCue := "[Assistant]\n"

  /** `_messages_to_prompt` */
  function MessagesToPrompt(msgs: seq<LlmMessage>, dumps: Payload -> string): string {
    Join(PromptBlocks(msgs, dumps) + [AssistantCue], "\n\n")
  }

  /** The prompt always ends with the assistant cue, after a blank line
      when there is any block before it. */
  lemma PromptEndsWithCue(msgs: seq<LlmMessage>, dumps: Payload -> string)
    ensures var r := MessagesToPrompt(msgs, dumps);
      |r| >= |AssistantCue| && r[|r| - |AssistantCue|..] == AssistantCue
    ensures PromptBlocks(msgs, dumps) == [] ==> MessagesToPrompt(msgs, dumps) == AssistantCue
    ensures PromptBlocks(msgs, dumps) != [] ==>
      MessagesToPrompt(msgs, dumps) == Join(PromptBlocks(msgs, dumps), "\n\n") + "\n\n" + AssistantCue
  {
    JoinSnoc(PromptBlocks(msgs, dumps), AssistantCue, "\n\n");
  }

  /** The prompt path does not normalise roles: a message whose role is
      written "User" becomes a user content but no prompt block. */
  lemma PromptRoleNotNormalised(text: string, f: SdkFactories, dumps: Payload -> string)
    requires text != ""
    ensures var m := LlmMessage("User", [MessagePart(TextType, Some(text), None, None)]);
      PromptBlock(m, dumps) == None && MessageContent(m, f, dumps) == Some(Content(UserRole, [TextPart(text)]))
  {
    var m := LlmMessage("User", [MessagePart(TextType, Some(text), None, None)]);
    assert PartsToSdk(m.parts, f, dumps) == [TextPart(text)] by {
      assert m.parts[1..] == [];
    }
    assert RoleHeader("User") == None;
    NormalRoleUser();
  }
}
