/** The text-only barge-in loop of pipeline/asr_llm_stream.py: the
    listener cancels the running reply and hands the newest transcript
    over; the LLM loop records the user turn, starts a fresh cancellation
    token, folds the reply stream and commits only a completed, non-empty
    reply to the history. The listener of pipeline/asr_llm_tts_stream.py
    is the same code and reuses `ListenerStep`. */
module ChatLoop {
  import opened Errors
  import opened Text
  import opened Queues
  import opened Cancellation
  import opened Interrupts
  import opened LlmBase
  import opened History
  import opened AsrTest

  /** `MAX_TURNS` / `max_turns` of both pipelines. */
  const MaxTurns: nat := 10

  /** The body of `asr_listener_loop` after transcription: a transcript
      that strips to nothing is skipped; otherwise the running reply is
      cancelled first and the text is pushed into the latest-wins queue. */
  method ListenerStep(interrupt: InterruptController, userQ: LatestQueue<string>, transcript: Option<string>)
    returns (pushed: Option<string>)
    modifies interrupt.token, userQ.q
    ensures pushed == ShownText(transcript)
    ensures interrupt.token == old(interrupt.token)
    ensures pushed.None? ==>
      && userQ.q.items == old(userQ.q.items)
      && (interrupt.token != null ==> interrupt.token.cancelled == old(interrupt.token.cancelled))
    ensures pushed.Some? ==>
      && (interrupt.token != null ==> interrupt.token.cancelled)
      && userQ.q.items == EvictPush(old(userQ.q.items), pushed.value, userQ.q.maxsize)
  {
    pushed := ShownText(transcript);
    if pushed.None? {
      return;
    }
    interrupt.Cancel();
    userQ.Push(pushed.value);
  }

  /** `for ch in llm.stream(...)`: collect each non-empty delta, stop after
      the first final chunk; an exception raised by the generator ends the
      loop with that exception. */
  method ConsumeStream(s: Stream) returns (r: Result<string>)
    ensures r == StreamText(s)
  {
    var parts: seq<string> := [];
    var i := 0;
    while i < |s.chunks|
      invariant 0 <= i <= |s.chunks| && i <= FinalIndex(s.chunks)
      invariant Concat(parts) == Concat(Deltas(s.chunks[..i]))
    {
      var ch := s.chunks[i];
      CollectStep(s.chunks, i, parts);
      if ch.textDelta != "" {
        parts := parts + [ch.textDelta];
      }
      ReadPast(s, i);
      if ch.isFinal {
        return Ok(Concat(parts));
      }
      i := i + 1;
    }
    assert s.chunks[..i] == s.chunks && Pulled(s) == i;
    if s.end.Raise? {
      return Err(s.end.error);
    }
    r := Ok(Concat(parts));
  }

  /** The long-lived state of `main()` in pipeline/asr_llm_stream.py. */
  class ChatSession {
    var history: seq<LlmMessage>
    const maxTurns: nat
    const interrupt: InterruptController
    const userQ: LatestQueue<string>

    /** The history starts with the system prompt; the mailbox holds one
        transcript; no token has been handed out. */
    constructor (systemPrompt: string)
      ensures history == [TextMessage("system", systemPrompt)] && maxTurns == MaxTurns
      ensures fresh(interrupt) && interrupt.token == null
      ensures fresh(userQ) && fresh(userQ.q) && userQ.q.items == [] && userQ.q.maxsize == 1
    {
      history := [TextMessage("system", systemPrompt)];
      maxTurns := MaxTurns;
      interrupt := new InterruptController();
      userQ := new LatestQueue(1);
    }

    /** One reply of `llm_loop` for a popped transcript: record and trim the
        user turn, replace the token (cancelling the previous one), fold the
        stream, and commit the stripped reply only when the stream finished
        with non-empty text. `s` is what `llm.stream` yields under the new
        token, cancellation included. */
    method Turn(userText: string, s: Stream) returns (outcome: Result<string>)
      modifies this, interrupt, interrupt.token
      ensures outcome == StreamText(s)
      ensures history == CommitReply(AfterUser(old(history), userText, maxTurns), outcome, maxTurns)
      ensures fresh(interrupt.token) && interrupt.token != null && !interrupt.token.cancelled
      ensures old(interrupt.token) != null ==> old(interrupt.token).cancelled
    {
      history := history + [TextMessage("user", userText)];
      history := TrimHistory(history, maxTurns);
      var token := interrupt.NewToken();
      outcome := ConsumeStream(s);
      if outcome.Err? {
        return;
      }
      var assistantText := Strip(outcome.value);
      if assistantText != "" {
        history := history + [TextMessage("assistant", assistantText)];
        history := TrimHistory(history, maxTurns);
      }
    }

    /** One iteration of `llm_loop`: an empty mailbox is the `pop` timing
        out, and nothing else happens. */
    method LlmLoopStep(s: Stream) returns (outcome: Option<Result<string>>)
      modifies this, interrupt, interrupt.token, userQ.q
      ensures old(userQ.q.items) == [] ==>
        && outcome == None && history == old(history) && userQ.q.items == []
        && interrupt.token == old(interrupt.token)
        && (interrupt.token != null ==> interrupt.token.cancelled == old(interrupt.token.cancelled))
      ensures old(userQ.q.items) != [] ==>
        && userQ.q.items == old(userQ.q.items)[1..]
        && outcome == Some(StreamText(s))
        && history == CommitReply(AfterUser(old(history), old(userQ.q.items)[0], maxTurns), StreamText(s), maxTurns)
        && fresh(interrupt.token) && interrupt.token != null && !interrupt.token.cancelled
        && (old(interrupt.token) != null ==> old(interrupt.token).cancelled)
    {
      var userText := userQ.Pop();
      if userText.None? {
        return None;
      }
      var r := Turn(userText.value, s);
      outcome := Some(r);
    }
  }

  /** What a turn leaves in the history: the system message stays first; a
      cancelled or failed reply leaves the user message last and no partial
      reply; a completed non-empty reply ends the history with the user
      message and then the stripped reply; and the history never grows past
      `1 + 2 * maxTurns` messages. */
  lemma {:induction false} TurnHistory(hist: seq<LlmMessage>, userText: string, outcome: Result<string>, maxTurns: nat)
    requires hist != [] && maxTurns >= 1
    ensures var h := CommitReply(AfterUser(hist, userText, maxTurns), outcome, maxTurns);
      && h != [] && h[0] == hist[0]
      && (|hist| <= 1 + 2 * maxTurns ==> |h| <= 1 + 2 * maxTurns)
      && (outcome.Err? ==> h[|h| - 1] == TextMessage("user", userText))
      && (outcome.Ok? && !AllSpace(outcome.value) ==>
            |h| >= 3 && h[|h| - 2] == TextMessage("user", userText)
            && h[|h| - 1] == TextMessage("assistant", Strip(outcome.value)))
  {
    var u := hist + [TextMessage("user", userText)];
    var a := AfterUser(hist, userText, maxTurns);
    TrimHistoryWindow(u, maxTurns);
    TrimHistoryKeepsEnds(u, maxTurns);
    CommitReplyRule(a, outcome, maxTurns);
    if outcome.Ok? && !AllSpace(outcome.value) {
      var m := TextMessage("assistant", Strip(outcome.value));
      var c := a + [m];
      TrimHistoryWindow(c, maxTurns);
      assert |a| >= 2 by {
        if |u| <= 1 + 2 * maxTurns { assert a == u; }
      }
      assert a[|a| - 1] == TextMessage("user", userText);
      var h := TrimHistory(c, maxTurns);
      if |c| > 1 + 2 * maxTurns {
        assert h[1..] == c[|c| - 2 * maxTurns..];
        assert h[|h| - 2] == h[1..][|h| - 3] == c[|c| - 2];
      }
    }
  }
}
