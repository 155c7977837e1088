/** The local transformers backend (src/llm/Qwen_official/model.py): its
    configuration check, the dtype resolution, the prompt it builds, and
    the generator that relays the streamer while the model runs on a
    worker thread. */
module Qwen {
  import opened Errors
  import opened Text
  import opened LlmBase

  /** The fields of `QwenOfficialConfig` the core reads. */
  datatype QwenConfig = QwenConfig(model: string, torchDtype: string, useChatTemplate: bool)

  /** The check in `__init__`: a model name is required. */
  function CheckConfig(cfg: QwenConfig): (r: Result<QwenConfig>)
    ensures r.Ok? <==> cfg.model != ""
    ensures r.Ok? ==> r.value == cfg
    ensures r.Err? ==> r.error == Value("QwenOfficialLLM requires cfg.model")
  {
    if cfg.model == "" then Err(Value("QwenOfficialLLM requires cfg.model")) else Ok(cfg)
  }

  // ---------------------------------------------------------------------
  // dtype

  datatype Dtype = Float16 | BFloat16 | Float32

  /** The dtype `auto` stands for: bfloat16 on a GPU that supports it,
      float16 on any other GPU, float32 without one. */
  function AutoDtype(cudaAvailable: bool, bf16Supported: bool): Dtype {
    if cudaAvailable then (if bf16Supported then BFloat16 else Float16) else Float32
  }

  /** The spellings accepted for each dtype, after lower-casing. */
  function DtypeAlias(name: string): Option<Dtype> {
    if name == "float16" || name == "fp16" then Some(Float16)
    else if name == "bfloat16" || name == "bf16" then Some(BFloat16)
    else if name == "float32" || name == "fp32" then Some(Float32)
    else None
  }

  /** `_resolve_dtype`. `cudaAvailable` is `torch.cuda.is_available()`;
      `bf16Supported` is whether `torch.cuda.is_bf16_supported` exists and
      returns true. The test for `auto` comes before lower-casing, the
      alias lookup after it. */
  function ResolveDtype(dtype: string, cudaAvailable: bool, bf16Supported: bool): (r: Result<Dtype>)
    ensures dtype == "" || dtype == "auto" ==> r == Ok(AutoDtype(cudaAvailable, bf16Supported))
    ensures dtype != "" && dtype != "auto" ==> (r.Ok? <==> DtypeAlias(Lower(dtype)).Some?)
    ensures r.Ok? && dtype != "" && dtype != "auto" ==> r.value == DtypeAlias(Lower(dtype)).value
    ensures r.Err? ==> r.error == Value("Unsupported torch dtype: " + Lower(dtype))
  {
    if dtype == "" || dtype == "auto" then Ok(AutoDtype(cudaAvailable, bf16Supported))
    else
      var d := Lower(dtype);
      match DtypeAlias(d)
      case Some(t) => Ok(t)
      case None => Err(Value("Unsupported torch dtype: " + d))
  }

  /** Aliases are matched whatever their case: a name and its lower-case
      form resolve alike (unless one of them is `auto` itself). */
  lemma ResolveDtypeIgnoresCase(dtype: string, cudaAvailable: bool, bf16Supported: bool)
    requires dtype != "auto" && Lower(dtype) != "auto"
    ensures ResolveDtype(dtype, cudaAvailable, bf16Supported) == ResolveDtype(Lower(dtype), cudaAvailable, bf16Supported)
  {
    LowerIdempotent(dtype);
  }

  /** `AUTO` is not `auto`: the test for the automatic choice is made on the
      name as written, so upper-case `AUTO` is rejected. */
  lemma UpperAutoRejected(cudaAvailable: bool, bf16Supported: bool)
    ensures ResolveDtype("AUTO", cudaAvailable, bf16Supported) == Err(Value("Unsupported torch dtype: auto"))
  {
    var l := Lower("AUTO");
    assert l[0] == LowerChar('A') == 'a';
    assert l[1] == 'u' && l[2] == 't' && l[3] == 'o';
    assert l == "auto";
  }

  // ---------------------------------------------------------------------
  // Prompt

  /** One `{"role": ..., "content": ...}` item. */
  datatype Item = Item(role: string, content: string)

  predicate KnownRole(role: string) {
    role == "system" || role == "user" || role == "assistant"
  }

  /** The item for a normalised role and a text: a role other than
      system, user or assistant becomes user. */
  function ItemFor(role: string, text: string): (r: Item)
    ensures KnownRole(r.role) && r.content == text
    ensures KnownRole(role) ==> r.role == role
    ensures !KnownRole(role) ==> r.role == "user"
  {
    Item(if KnownRole(role) then role else "user", text)
  }

  /** The item of one message: none when its text is empty, otherwise its
      text under its normalised role. */
  function MessageItem(m: LlmMessage, dumps: Payload -> string): (r: Option<Item>)
    ensures r.Some? <==> PartsToText(m.parts, dumps) != ""
    ensures r.Some? ==> r.value == ItemFor(NormalRole(m.role), PartsToText(m.parts, dumps))
  {
    var text := PartsToText(m.parts, dumps);
    if text == "" then None else Some(ItemFor(NormalRole(m.role), text))
  }

  /** The items of the messages, in order. Every item has a known role
      and non-empty content. */
  function Items(msgs: seq<LlmMessage>, dumps: Payload -> string): (r: seq<Item>)
    ensures forall i :: 0 <= i < |r| ==> KnownRole(r[i].role) && r[i].content != ""
  {
    if msgs == [] then []
    else
      var rest := Items(msgs[1..], dumps);
      match MessageItem(msgs[0], dumps)
      case Some(it) => [it] + rest
      case None => rest
  }

  /** The header of a block for an item's role. */
  function ItemHeader(role: string): (r: Option<string>)
    ensures r.Some? <==> KnownRole(role)
  {
    if role == "system" then Some("[System]")
    else if role == "user" then Some("[User]")
    else if role == "assistant" then Some("[Assistant]")
    else None
  }

  function ItemBlocks(items: seq<Item>): seq<string> {
    if items == [] then []
    else
      var rest := ItemBlocks(items[1..]);
      match ItemHeader(items[0].role)
      case Some(h) => [h + "\n" + items[0].content] + rest
      case None => rest
  }

  /** Because every role was normalised into the known three, the fallback
      prompt has one block per item, in order. */
  lemma {:induction false} ItemBlocksComplete(items: seq<Item>)
    requires forall i :: 0 <= i < |items| ==> KnownRole(items[i].role)
    ensures |ItemBlocks(items)| == |items|
    ensures forall i :: 0 <= i < |items| ==>
      ItemBlocks(items)[i] == ItemHeader(items[i].role).value + "\n" + items[i].content
  {
    if items != [] {
      ItemBlocksComplete(items[1..]);
      var rest := ItemBlocks(items[1..]);
      var b := ItemHeader(items[0].role).value + "\n" + items[0].content;
      assert ItemBlocks(items) == [b] + rest;
      forall i | 1 <= i < |items|
        ensures ItemBlocks(items)[i] == ItemHeader(items[i].role).value + "\n" + items[i].content
      {
        assert ItemBlocks(items)[i] == rest[i - 1];
        assert items[1..][i - 1] == items[i];
      }
    }
  }

  const AssistantCue := "[Assistant]\n"

  /** `_messages_to_prompt`. `useTemplate` is `cfg.use_chat_template`,
      `hasTemplate` whether the tokenizer has `apply_chat_template`, and
      `chatTemplate` that method with `add_generation_prompt=True`. */
  function MessagesToPrompt(msgs: seq<LlmMessage>, dumps: Payload -> string,
                            useTemplate: bool, hasTemplate: bool, chatTemplate: seq<Item> -> string): string {
    var items := Items(msgs, dumps);
    if useTemplate && hasTemplate then chatTemplate(items)
    else Join(ItemBlocks(items) + [AssistantCue], "\n\n")
  }

  /** The fallback prompt: one block per message with text, then the
      assistant cue, all separated by blank lines. */
  lemma FallbackPromptShape(msgs: seq<LlmMessage>, dumps: Payload -> string,
                            useTemplate: bool, hasTemplate: bool, chatTemplate: seq<Item> -> string)
    requires !(useTemplate && hasTemplate)
    ensures var p := MessagesToPrompt(msgs, dumps, useTemplate, hasTemplate, chatTemplate);
      && |ItemBlocks(Items(msgs, dumps))| == |Items(msgs, dumps)|
      && (Items(msgs, dumps) == [] ==> p == AssistantCue)
      && (Items(msgs, dumps) != [] ==> p == Join(ItemBlocks(Items(msgs, dumps)), "\n\n") + "\n\n" + AssistantCue)
  {
    ItemBlocksComplete(Items(msgs, dumps));
    JoinSnoc(ItemBlocks(Items(msgs, dumps)), AssistantCue, "\n\n");
  }

  /** Unlike the Gemini prompt path, this one normalises roles: a message
      whose role is written "User" still becomes a user block. */
  lemma PromptRoleNormalised(text: string, dumps: Payload -> string)
    requires text != "" && !IsSpace(text[0]) && !IsSpace(text[|text| - 1])
    ensures var m := LlmMessage("User", [MessagePart(TextType, Some(text), None, None)]);
      Items([m], dumps) == [Item("user", text)]
  {
    var m := LlmMessage("User", [MessagePart(TextType, Some(text), None, None)]);
    assert PartLines(m.parts, dumps) == [text] by {
      assert m.parts[1..] == [];
    }
    StripNoOp(text);
    assert PartsToText(m.parts, dumps) == text;
    NormalRoleUser();
    assert [m][1..] == [];
  }

  // ---------------------------------------------------------------------
  // Streaming

  /** The chunks relayed for the streamer's texts: one per non-empty
      text. */
  function TextChunks(texts: seq<string>): (cs: seq<Chunk>)
    ensures forall j :: 0 <= j < |cs| ==> !cs[j].isFinal && cs[j].textDelta != ""
  {
    if texts == [] then []
    else (if texts[0] != "" then [Chunk(texts[0], false)] else []) + TextChunks(texts[1..])
  }

  /** Skipping empty texts loses nothing: the relayed deltas spell out the
      streamed text. */
  lemma {:induction false} TextChunksConcat(texts: seq<string>)
    ensures Concat(Deltas(TextChunks(texts))) == Concat(texts)
  {
    if texts != [] {
      TextChunksConcat(texts[1..]);
      var head := if texts[0] != "" then [Chunk(texts[0], false)] else [];
      var rest := TextChunks(texts[1..]);
      assert Deltas(head + rest) == Deltas(head) + Deltas(rest);
      ConcatAppend(Deltas(head), Deltas(rest));
      if texts[0] != "" {
        assert Deltas(head) == [texts[0]];
        assert Concat([texts[0]]) == texts[0] + Concat([]);
      } else {
        assert Deltas(head) == [];
      }
    }
  }

  const GenerateFailed := "QwenOfficialLLM generate failed"

  /** What `stream` yields, as written. `cancelPoint` numbers the token
      checks: 0 is the check on entry and `i + 1` the check when streamer
      text `i` arrives; there is none in `finally`. `threadFailed` is
      whether the worker thread recorded an exception. */
  function StreamSpec(texts: seq<string>, threadFailed: bool, cancelPoint: nat): Stream {
    if cancelPoint == 0 then Stream([], Raise(Cancelled))
    else if cancelPoint <= |texts| then Stream(TextChunks(texts[..cancelPoint - 1]), Raise(Cancelled))
    else if threadFailed then Stream(TextChunks(texts), Raise(Runtime(GenerateFailed)))
    else Stream(TextChunks(texts) + [Chunk("", true)], Done)
  }

  /** The generator body of `stream`: relay the streamer, then in
      `finally` either raise the worker's failure or close with the final
      chunk. */
  method StreamTexts(texts: seq<string>, threadFailed: bool, cancelPoint: nat) returns (s: Stream)
    ensures s == StreamSpec(texts, threadFailed, cancelPoint)
  {
    if cancelPoint == 0 {
      return Stream([], Raise(Cancelled));
    }
    var out: seq<Chunk> := [];
    var cancelled := false;
    var i := 0;
    while i < |texts|
      invariant 0 <= i <= |texts| && i < cancelPoint
      invariant out == TextChunks(texts[..i])
    {
      if i + 1 >= cancelPoint {
        cancelled := true;
        break;
      }
      TextChunksSnoc(texts[..i], texts[i]);
      assert texts[..i + 1] == texts[..i] + [texts[i]];
      if texts[i] != "" {
        out := out + [Chunk(texts[i], false)];
      }
      i := i + 1;
    }
    if cancelled {
      return Stream(out, Raise(Cancelled));
    }
    assert texts[..i] == texts;
    if threadFailed {
      return Stream(out, Raise(Runtime(GenerateFailed)));
    }
    s := Stream(out + [Chunk("", true)], Done);
  }

  lemma {:induction false} TextChunksSnoc(texts: seq<string>, t: string)
    ensures TextChunks(texts + [t]) == TextChunks(texts) + (if t != "" then [Chunk(t, false)] else [])
  {
    if texts == [] {
      assert [t][1..] == [];
    } else {
      assert (texts + [t])[1..] == texts[1..] + [t];
      TextChunksSnoc(texts[1..], t);
      var head := if texts[0] != "" then [Chunk(texts[0], false)] else [];
      AppendAssoc(head, TextChunks(texts[1..]), if t != "" then [Chunk(t, false)] else []);
    }
  }

  /** A failure of the model thread reaches the consumer as a
      `RuntimeError`, and a cancellation seen in the loop as
      `CancelledError`; only an undisturbed run folds to text, and then to
      everything the streamer produced. */
  lemma StreamOutcome(texts: seq<string>, threadFailed: bool, cancelPoint: nat)
    ensures cancelPoint <= |texts| ==> StreamText(StreamSpec(texts, threadFailed, cancelPoint)) == Err(Cancelled)
    ensures cancelPoint > |texts| && threadFailed ==>
      StreamText(StreamSpec(texts, threadFailed, cancelPoint)) == Err(Runtime(GenerateFailed))
    ensures cancelPoint > |texts| && !threadFailed ==>
      StreamText(StreamSpec(texts, threadFailed, cancelPoint)) == Ok(Concat(texts))
  {
    var s := StreamSpec(texts, threadFailed, cancelPoint);
    if cancelPoint == 0 {
      assert s == Stream([], Raise(Cancelled));
      StreamTextOpen([], Raise(Cancelled));
    } else if cancelPoint <= |texts| {
      var cs := TextChunks(texts[..cancelPoint - 1]);
      assert s == Stream(cs, Raise(Cancelled));
      StreamTextOpen(cs, Raise(Cancelled));
    } else if threadFailed {
      assert s == Stream(TextChunks(texts), Raise(Runtime(GenerateFailed)));
      StreamTextOpen(TextChunks(texts), Raise(Runtime(GenerateFailed)));
    } else {
      assert s == Stream(TextChunks(texts) + [Chunk("", true)], Done);
      StreamTextClosed(TextChunks(texts), "", Done);
      TextChunksConcat(texts);
      assert Concat(Deltas(TextChunks(texts))) + "" == Concat(texts);
    }
  }

  /** `generate` over this stream, with no cancellation seen by the
      consumer: the full text on success, the worker's failure otherwise. */
  lemma GenerateOutcome(cfg: LlmConfig, texts: seq<string>, threadFailed: bool, cancelledAt: seq<bool>)
    requires |cancelledAt| == |StreamSpec(texts, threadFailed, |texts| + 1).chunks|
    requires forall j :: 0 <= j < |cancelledAt| ==> !cancelledAt[j]
    ensures var s := StreamSpec(texts, threadFailed, |texts| + 1);
      GenerateResult(cfg, s, cancelledAt) ==
        if threadFailed then Err(Runtime(GenerateFailed)) else Ok(Response(Concat(texts), cfg.backend, cfg.model))
  {
    StreamOutcome(texts, threadFailed, |texts| + 1);
  }
}
