/** The in-memory conversation window shared by both pipelines: the
    `trim_history` closure and the rule for committing a reply. */
module History {
  import opened Errors
  import opened Text
  import opened LlmBase

  /** `LLMMessage(role=role, parts=[MessagePart(type="text", text=text)])` */
  function TextMessage(role: string, text: string): LlmMessage {
    LlmMessage(role, [MessagePart(TextType, Some(text), None, None)])
  }

  /** `trim_history` with `max_turns`: keep `hist[0]` and `hist[-(keep-1):]`
      once the history is longer than `keep = 1 + 2 * max_turns`. Python's
      `hist[-0:]` is the whole list, hence the first branch. */
  function TrimHistory(hist: seq<LlmMessage>, maxTurns: nat): seq<LlmMessage> {
    var keep := 1 + 2 * maxTurns;
    if |hist| > keep then
      if maxTurns == 0 then [hist[0]] + hist
      else [hist[0]] + hist[|hist| - 2 * maxTurns..]
    else hist
  }

  /** With at least one retained exchange, trimming keeps the system
      message and exactly the `2 * maxTurns` most recent messages, and it
      leaves a short history alone. */
  lemma TrimHistoryWindow(hist: seq<LlmMessage>, maxTurns: nat)
    requires maxTurns >= 1
    ensures var r := TrimHistory(hist, maxTurns);
      && (|hist| <= 1 + 2 * maxTurns ==> r == hist)
      && (|hist| > 1 + 2 * maxTurns ==>
            |r| == 1 + 2 * maxTurns && r[0] == hist[0]
            && r[1..] == hist[|hist| - 2 * maxTurns..])
  {
    var r := TrimHistory(hist, maxTurns);
    if |hist| > 1 + 2 * maxTurns {
      assert r[1..] == hist[|hist| - 2 * maxTurns..];
    }
  }

  /** Trimming twice is trimming once. */
  lemma TrimHistoryIdempotent(hist: seq<LlmMessage>, maxTurns: nat)
    requires maxTurns >= 1
    ensures TrimHistory(TrimHistory(hist, maxTurns), maxTurns) == TrimHistory(hist, maxTurns)
  {
  }

  /** The first message (the system prompt) and the newest message always
      survive a trim, whatever `maxTurns` is. */
  lemma TrimHistoryKeepsEnds(hist: seq<LlmMessage>, maxTurns: nat)
    requires hist != []
    ensures var r := TrimHistory(hist, maxTurns);
      r != [] && r[0] == hist[0] && r[|r| - 1] == hist[|hist| - 1]
  {
  }

  /** With `max_turns = 0` the slice `hist[-0:]` is the whole list, so the
      trimmed history is one longer than before and holds the system
      message twice. Both pipelines fix `max_turns` at 10. */
  lemma TrimHistoryZeroTurns(hist: seq<LlmMessage>)
    requires |hist| > 1
    ensures |TrimHistory(hist, 0)| == |hist| + 1
    ensures TrimHistory(hist, 0)[0] == TrimHistory(hist, 0)[1] == hist[0]
  {
  }

  /** The history after a user turn: append the user message, then trim. */
  function AfterUser(hist: seq<LlmMessage>, userText: string, maxTurns: nat): seq<LlmMessage> {
    TrimHistory(hist + [TextMessage("user", userText)], maxTurns)
  }

  /** The commit rule after the stream loop: a reply whose stripped text is
      non-empty is appended (then trimmed); an empty reply, a cancellation
      or any other error leaves the history as it was. */
  function CommitReply(hist: seq<LlmMessage>, outcome: Result<string>, maxTurns: nat): seq<LlmMessage> {
    if outcome.Ok? && Strip(outcome.value) != "" then
      TrimHistory(hist + [TextMessage("assistant", Strip(outcome.value))], maxTurns)
    else hist
  }

  /** A cancelled or failed turn never reaches the history; a completed one
      ends the history with the stripped reply and keeps the system
      message in front. */
  lemma CommitReplyRule(hist: seq<LlmMessage>, outcome: Result<string>, maxTurns: nat)
    requires hist != []
    ensures outcome.Err? ==> CommitReply(hist, outcome, maxTurns) == hist
    ensures outcome.Ok? && AllSpace(outcome.value) ==> CommitReply(hist, outcome, maxTurns) == hist
    ensures outcome.Ok? && !AllSpace(outcome.value) ==>
      var r := CommitReply(hist, outcome, maxTurns);
      r != [] && r[0] == hist[0] && r[|r| - 1] == TextMessage("assistant", Strip(outcome.value))
  {
    if outcome.Ok? && !AllSpace(outcome.value) {
      var h := hist + [TextMessage("assistant", Strip(outcome.value))];
      TrimHistoryKeepsEnds(h, maxTurns);
    }
  }
}
