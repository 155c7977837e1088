/** The speech pipeline of pipeline/asr_llm_tts_stream.py with barge-in:
    the LLM loop carves each reply into segments stamped with a generation
    id and queues them for synthesis; the synthesis worker and the playback
    worker drop every unit whose generation id is no longer the current
    one; a detected speech start cancels the reply, advances the generation
    id, empties both queues and asks the playback worker to clear its
    buffer. Threads are not modelled: each worker's loop body is one
    method, and a barge-in during synthesis is an explicit choice. */
module Pipeline {
  import opened Errors
  import opened Text
  import opened Queues
  import opened Interrupts
  import opened LlmBase
  import opened History
  import opened TextSegmenter
  import opened Playback
  import opened ChatLoop

  /** `tts_q` and `audio_q` are both created with `maxsize=12`. */
  const TtsQueueSize: int := 12
  const AudioQueueSize: int := 12

  /** An item of `tts_q`: `(gen_id, reply_id, seg_idx, text)`. */
  datatype TtsUnit = TtsUnit(genId: nat, replyId: nat, segIdx: nat, text: string)

  /** An item of `audio_q` without the measured synthesis time: the
      synthesized samples (already decoded), their rate and the length of
      the text they speak. */
  datatype AudioUnit = AudioUnit(genId: nat, replyId: nat, segIdx: nat, samples: seq<Sample>, sampleRate: int, textLen: nat)

  /** `current_gen_id` behind `gen_lock`. */
  class GenCounter {
    var current: nat

    constructor ()
      ensures current == 0
    {
      current := 0;
    }

    /** `bump_gen_id` */
    method Bump() returns (id: nat)
      modifies this
      ensures current == old(current) + 1 && id == current
    {
      current := current + 1;
      id := current;
    }

    /** `get_gen_id` */
    method Get() returns (id: nat)
      ensures id == current
    {
      id := current;
    }
  }

  /** The `playback_reset` event. */
  class ResetFlag {
    var isSet: bool

    constructor ()
      ensures !isSet
    {
      isSet := false;
    }
  }

  /** The synthesis queue after `push_tts_segment`: a text that strips to
      nothing is not queued; otherwise the oldest units are evicted until
      the new one fits, so the queue stays within its capacity, ends with
      the new unit and keeps a suffix of the old units in order. */
  function TtsPush(items: seq<TtsUnit>, u: TtsUnit, maxsize: int): (r: seq<TtsUnit>)
    ensures AllSpace(u.text) ==> r == items
    ensures !AllSpace(u.text) ==>
      && (maxsize > 0 ==> |r| <= maxsize)
      && 1 <= |r| <= |items| + 1 && r[|r| - 1] == u
      && r[..|r| - 1] == items[|items| - (|r| - 1)..]
  {
    EvictPushShape(items, u, maxsize);
    if AllSpace(u.text) then items else EvictPush(items, u, maxsize)
  }

  /** `push_tts_segment` */
  method PushTtsSegment(ttsQ: BoundedQueue<TtsUnit>, u: TtsUnit)
    modifies ttsQ
    ensures ttsQ.items == TtsPush(old(ttsQ.items), u, ttsQ.maxsize)
  {
    if Strip(u.text) == "" {
      return;
    }
    ttsQ.PutEvictingOldest(u);
  }

  /** The units `emit_segment` hands over for `texts` when `seg_idx` stood
      at `after`: it is incremented before each push, so the units are
      numbered `after + 1`, `after + 2`, ... whether or not they are
      queued. */
  function Units(genId: nat, replyId: nat, after: nat, texts: seq<string>): (us: seq<TtsUnit>)
    ensures |us| == |texts|
    ensures forall k :: 0 <= k < |texts| ==> us[k] == TtsUnit(genId, replyId, after + k + 1, texts[k])
  {
    seq(|texts|, k requires 0 <= k < |texts| => TtsUnit(genId, replyId, after + k + 1, texts[k]))
  }

  lemma UnitsAppend(genId: nat, replyId: nat, after: nat, a: seq<string>, b: seq<string>)
    ensures Units(genId, replyId, after, a + b) == Units(genId, replyId, after, a) + Units(genId, replyId, after + |a|, b)
  {
  }

  /** Pushing the units one after another. */
  function TtsPushAll(items: seq<TtsUnit>, us: seq<TtsUnit>, maxsize: int): seq<TtsUnit>
    decreases |us|
  {
    if us == [] then items else TtsPushAll(TtsPush(items, us[0], maxsize), us[1..], maxsize)
  }

  lemma {:induction false} TtsPushAllAppend(items: seq<TtsUnit>, us: seq<TtsUnit>, vs: seq<TtsUnit>, maxsize: int)
    ensures TtsPushAll(items, us + vs, maxsize) == TtsPushAll(TtsPushAll(items, us, maxsize), vs, maxsize)
    decreases |us|
  {
    if us == [] {
      assert us + vs == vs;
    } else {
      assert (us + vs)[1..] == us[1..] + vs;
      TtsPushAllAppend(TtsPush(items, us[0], maxsize), us[1..], vs, maxsize);
    }
  }

  lemma TtsPushAllOne(items: seq<TtsUnit>, u: TtsUnit, maxsize: int)
    ensures TtsPushAll(items, [u], maxsize) == TtsPush(items, u, maxsize)
  {
    assert [u][1..] == [];
  }

  lemma PushUnitsStep(items: seq<TtsUnit>, genId: nat, replyId: nat, after: nat, texts: seq<string>, k: nat, maxsize: int)
    requires k < |texts|
    ensures TtsPushAll(items, Units(genId, replyId, after, texts[..k + 1]), maxsize)
         == TtsPush(TtsPushAll(items, Units(genId, replyId, after, texts[..k]), maxsize),
                    TtsUnit(genId, replyId, after + k + 1, texts[k]), maxsize)
  {
    var u := TtsUnit(genId, replyId, after + k + 1, texts[k]);
    assert texts[..k + 1] == texts[..k] + [texts[k]];
    UnitsAppend(genId, replyId, after, texts[..k], [texts[k]]);
    assert Units(genId, replyId, after + k, [texts[k]]) == [u];
    TtsPushAllAppend(items, Units(genId, replyId, after, texts[..k]), [u], maxsize);
    TtsPushAllOne(TtsPushAll(items, Units(genId, replyId, after, texts[..k]), maxsize), u, maxsize);
  }

  /** Calling `emit_segment` for each text in turn. */
  method PushSegments(ttsQ: BoundedQueue<TtsUnit>, genId: nat, replyId: nat, after: nat, texts: seq<string>)
    modifies ttsQ
    ensures ttsQ.items == TtsPushAll(old(ttsQ.items), Units(genId, replyId, after, texts), ttsQ.maxsize)
  {
    var k := 0;
    while k < |texts|
      invariant 0 <= k <= |texts|
      invariant ttsQ.items == TtsPushAll(old(ttsQ.items), Units(genId, replyId, after, texts[..k]), ttsQ.maxsize)
    {
      var u := TtsUnit(genId, replyId, after + k + 1, texts[k]);
      PushUnitsStep(old(ttsQ.items), genId, replyId, after, texts, k, ttsQ.maxsize);
      PushTtsSegment(ttsQ, u);
      k := k + 1;
    }
    assert texts[..k] == texts;
  }

  /** What the synthesis queue may hold while generation `current` is
      running: at most `maxsize` units, none of them only whitespace, none
      stamped with a later generation. */
  predicate TtsQueueOk(items: seq<TtsUnit>, maxsize: int, current: nat) {
    && (maxsize > 0 ==> |items| <= maxsize)
    && forall k :: 0 <= k < |items| ==> !AllSpace(items[k].text) && items[k].genId <= current
  }

  lemma TtsPushKeepsOk(items: seq<TtsUnit>, u: TtsUnit, maxsize: int, current: nat)
    requires TtsQueueOk(items, maxsize, current) && u.genId <= current
    ensures TtsQueueOk(TtsPush(items, u, maxsize), maxsize, current)
  {
    var r := TtsPush(items, u, maxsize);
    if !AllSpace(u.text) {
      var off := |items| - (|r| - 1);
      forall k | 0 <= k < |r|
        ensures !AllSpace(r[k].text) && r[k].genId <= current
      {
        if k < |r| - 1 {
          assert r[k] == r[..|r| - 1][k] == items[off + k];
        }
      }
    }
  }

  /** Pushing any units of the running generation keeps the synthesis
      queue within its capacity and free of whitespace-only units. */
  lemma {:induction false} TtsPushAllKeepsOk(items: seq<TtsUnit>, us: seq<TtsUnit>, maxsize: int, current: nat)
    requires TtsQueueOk(items, maxsize, current)
    requires forall k :: 0 <= k < |us| ==> us[k].genId <= current
    ensures TtsQueueOk(TtsPushAll(items, us, maxsize), maxsize, current)
    decreases |us|
  {
    if us != [] {
      TtsPushKeepsOk(items, us[0], maxsize, current);
      TtsPushAllKeepsOk(TtsPush(items, us[0], maxsize), us[1..], maxsize, current);
    }
  }

  /** A non-blank unit pushed onto a full synthesis queue evicts exactly
      the oldest unit. */
  lemma TtsPushEvictsOldest(items: seq<TtsUnit>, u: TtsUnit, maxsize: int)
    requires maxsize > 0 && |items| == maxsize && !AllSpace(u.text)
    ensures TtsPush(items, u, maxsize) == items[1..] + [u]
  {
    assert (items + [u])[1..] == items[1..] + [u];
  }

  /** The texts one reply hands to `emit_segment`, for a stream `s` read
      under the reply's token and the clock's verdict `expired[i]` after
      the `i`-th chunk: the segments cut while streaming and, when the
      reply completes with text that does not strip to nothing, the rest
      of the buffer. */
  function TurnTexts(cfg: SegmenterConfig, s: Stream, expired: seq<bool>): seq<string>
    requires |expired| == |s.chunks|
  {
    var fed := Fed(cfg, s, expired);
    var outcome := StreamText(s);
    if outcome.Ok? && !AllSpace(outcome.value) && fed.1 != "" then fed.0 + [fed.1] else fed.0
  }

  /** The segmenter's fold over the deltas the loop reads. */
  function Fed(cfg: SegmenterConfig, s: Stream, expired: seq<bool>): (seq<string>, string)
    requires |expired| == |s.chunks|
  {
    FeedAll(cfg, "", Deltas(s.chunks[..Pulled(s)]), expired[..Pulled(s)])
  }

  /** Segmentation never invents, drops or reorders text: what is spoken
      for a reply is always a prefix of the text received, and for a reply
      that completes with some non-blank text it is all of it. */
  lemma TurnTextsConserve(cfg: SegmenterConfig, s: Stream, expired: seq<bool>)
    requires |expired| == |s.chunks|
    ensures Concat(TurnTexts(cfg, s, expired)) <= Concat(Deltas(s.chunks[..Pulled(s)]))
    ensures StreamText(s).Ok? && !AllSpace(StreamText(s).value) ==>
      Concat(TurnTexts(cfg, s, expired)) == StreamText(s).value
  {
    var n := Pulled(s);
    var ds := Deltas(s.chunks[..n]);
    var fed := FeedAll(cfg, "", ds, expired[..n]);
    FeedAllConserves(cfg, "", ds, expired[..n]);
    assert "" + Concat(ds) == Concat(ds);
    ConcatSnoc(fed.0, fed.1);
    assert Concat(fed.0) <= Concat(fed.0) + fed.1;
  }

  /** An interrupted or failed reply speaks only what was cut before the
      interruption: the rest of its buffer is never flushed. */
  lemma TurnTextsInterrupted(cfg: SegmenterConfig, s: Stream, expired: seq<bool>)
    requires |expired| == |s.chunks|
    requires StreamText(s).Err?
    ensures TurnTexts(cfg, s, expired) == FeedAll(cfg, "", Deltas(s.chunks), expired).0
  {
    assert s.chunks[..Pulled(s)] == s.chunks && expired[..Pulled(s)] == expired;
  }

  /** One chunk's delta: `Feed` followed by `emit_segment` for each cut. */
  method FeedAndPush(seg: Segmenter, ttsQ: BoundedQueue<TtsUnit>, genId: nat, replyId: nat, delta: string, waitExpired: bool)
    returns (emitted: seq<string>)
    modifies seg, ttsQ
    ensures (emitted, seg.buffer) == Step(seg.cfg, old(seg.buffer), delta, waitExpired)
    ensures seg.segIdx == old(seg.segIdx) + |emitted|
    ensures ttsQ.items == TtsPushAll(old(ttsQ.items), Units(genId, replyId, old(seg.segIdx), emitted), ttsQ.maxsize)
  {
    var before := seg.segIdx;
    emitted := seg.Feed(delta, waitExpired);
    PushSegments(ttsQ, genId, replyId, before, emitted);
  }

  /** One chunk's worth of progress: the segmenter's fold and the queue's
      fold both advance by the step just taken. */
  lemma FeedTtsStep(cfg: SegmenterConfig, ds: seq<string>, es: seq<bool>, d: string, e: bool,
                    emitted: seq<string>, buf: string, out: seq<string>, buf': string,
                    items0: seq<TtsUnit>, queued: seq<TtsUnit>, genId: nat, replyId: nat, maxsize: int)
    requires |es| == |ds|
    requires (emitted, buf) == FeedAll(cfg, "", ds, es)
    requires (out, buf') == Step(cfg, buf, d, e)
    requires queued == TtsPushAll(items0, Units(genId, replyId, 0, emitted), maxsize)
    ensures (emitted + out, buf') == FeedAll(cfg, "", ds + [d], es + [e])
    ensures TtsPushAll(queued, Units(genId, replyId, |emitted|, out), maxsize)
         == TtsPushAll(items0, Units(genId, replyId, 0, emitted + out), maxsize)
  {
    FeedAllSnoc(cfg, "", ds, es, d, e);
    UnitsAppend(genId, replyId, 0, emitted, out);
    TtsPushAllAppend(items0, Units(genId, replyId, 0, emitted), Units(genId, replyId, |emitted|, out), maxsize);
  }

  /** The body of the `for ch in llm.stream(...)` loop for chunk `i`:
      collect a non-empty delta, feed it to the segmenter and queue every
      cut. Both folds advance by one chunk. */
  method TakeChunk(s: Stream, expired: seq<bool>, i: nat, parts: seq<string>, seg: Segmenter, ttsQ: BoundedQueue<TtsUnit>,
                   genId: nat, replyId: nat, ghost items0: seq<TtsUnit>, ghost emitted: seq<string>)
    returns (parts': seq<string>, ghost emitted': seq<string>)
    requires |expired| == |s.chunks| && i < |s.chunks|
    requires Concat(parts) == Concat(Deltas(s.chunks[..i]))
    requires (emitted, seg.buffer) == FeedAll(seg.cfg, "", Deltas(s.chunks[..i]), expired[..i])
    requires seg.segIdx == |emitted|
    requires ttsQ.items == TtsPushAll(items0, Units(genId, replyId, 0, emitted), ttsQ.maxsize)
    modifies seg, ttsQ
    ensures Concat(parts') == Concat(Deltas(s.chunks[..i + 1]))
    ensures (emitted', seg.buffer) == FeedAll(seg.cfg, "", Deltas(s.chunks[..i + 1]), expired[..i + 1])
    ensures seg.segIdx == |emitted'|
    ensures ttsQ.items == TtsPushAll(items0, Units(genId, replyId, 0, emitted'), ttsQ.maxsize)
  {
    var ch := s.chunks[i];
    ghost var ds := Deltas(s.chunks[..i]);
    ghost var buf0 := seg.buffer;
    ghost var q0 := ttsQ.items;
    DeltasSnoc(s.chunks, i);
    assert expired[..i + 1] == expired[..i] + [expired[i]];
    ConcatSnoc(ds, ch.textDelta);
    parts' := parts;
    var out: seq<string> := [];
    if ch.textDelta != "" {
      ConcatSnoc(parts, ch.textDelta);
      parts' := parts + [ch.textDelta];
      out := FeedAndPush(seg, ttsQ, genId, replyId, ch.textDelta, expired[i]);
    } else {
      assert Step(seg.cfg, seg.buffer, ch.textDelta, expired[i]) == ([], seg.buffer);
      assert Units(genId, replyId, |emitted|, out) == [];
    }
    FeedTtsStep(seg.cfg, ds, expired[..i], ch.textDelta, expired[i], emitted, buf0, out, seg.buffer,
                items0, q0, genId, replyId, ttsQ.maxsize);
    emitted' := emitted + out;
  }

  /** The `for ch in llm.stream(...)` loop of `llm_tts_loop`: it collects
      the deltas as `ConsumeStream` does and feeds each non-empty one to the
      segmenter, queueing every cut for synthesis. */
  method StreamToTts(s: Stream, expired: seq<bool>, seg: Segmenter, ttsQ: BoundedQueue<TtsUnit>, genId: nat, replyId: nat)
    returns (outcome: Result<string>)
    requires |expired| == |s.chunks|
    requires seg.buffer == "" && seg.segIdx == 0
    modifies seg, ttsQ
    ensures outcome == StreamText(s)
    ensures seg.buffer == Fed(seg.cfg, s, expired).1 && seg.segIdx == |Fed(seg.cfg, s, expired).0|
    ensures ttsQ.items == TtsPushAll(old(ttsQ.items), Units(genId, replyId, 0, Fed(seg.cfg, s, expired).0), ttsQ.maxsize)
  {
    ghost var items0 := ttsQ.items;
    var parts: seq<string> := [];
    ghost var emitted: seq<string> := [];
    var i := 0;
    while i < |s.chunks|
      invariant 0 <= i <= |s.chunks| && i <= FinalIndex(s.chunks)
      invariant Concat(parts) == Concat(Deltas(s.chunks[..i]))
      invariant (emitted, seg.buffer) == FeedAll(seg.cfg, "", Deltas(s.chunks[..i]), expired[..i])
      invariant seg.segIdx == |emitted|
      invariant ttsQ.items == TtsPushAll(items0, Units(genId, replyId, 0, emitted), ttsQ.maxsize)
    {
      parts, emitted := TakeChunk(s, expired, i, parts, seg, ttsQ, genId, replyId, items0, emitted);
      if s.chunks[i].isFinal {
        assert FinalIndex(s.chunks) == i && Pulled(s) == i + 1;
        assert Fed(seg.cfg, s, expired) == (emitted, seg.buffer);
        return Ok(Concat(parts));
      }
      assert i < FinalIndex(s.chunks) by {
        assert !s.chunks[i].isFinal;
      }
      i := i + 1;
    }
    assert s.chunks[..i] == s.chunks && expired[..i] == expired && Pulled(s) == i;
    assert Fed(seg.cfg, s, expired) == (emitted, seg.buffer);
    if s.end.Raise? {
      return Err(s.end.error);
    }
    outcome := Ok(Concat(parts));
  }

  /** The reply part of `llm_tts_loop` under a fresh segmenter: stream
      into the synthesis queue; when the reply ends with an exception, or
      with text that strips to nothing, stop there; otherwise flush the
      rest of the buffer as one more segment. */
  method SpeakReply(s: Stream, expired: seq<bool>, ttsQ: BoundedQueue<TtsUnit>, genId: nat, replyId: nat)
    returns (outcome: Result<string>)
    requires |expired| == |s.chunks|
    modifies ttsQ
    ensures outcome == StreamText(s)
    ensures ttsQ.items == TtsPushAll(old(ttsQ.items), Units(genId, replyId, 0, TurnTexts(DefaultConfig, s, expired)), ttsQ.maxsize)
  {
    var seg := new Segmenter(DefaultConfig);
    outcome := StreamToTts(s, expired, seg, ttsQ, genId, replyId);
    ghost var fed := Fed(DefaultConfig, s, expired);
    if outcome.Err? {
      assert TurnTexts(DefaultConfig, s, expired) == fed.0;
      return;
    }
    if Strip(outcome.value) == "" {
      assert TurnTexts(DefaultConfig, s, expired) == fed.0;
      return;
    }
    ghost var queued := ttsQ.items;
    var flushed := FlushToTts(seg, ttsQ, genId, replyId);
    FlushStep(old(ttsQ.items), queued, genId, replyId, fed.0, flushed, ttsQ.maxsize);
    assert TurnTexts(DefaultConfig, s, expired) == fed.0 + flushed;
  }

  /** The final `if buffer: emit_segment(buffer)`. */
  method FlushToTts(seg: Segmenter, ttsQ: BoundedQueue<TtsUnit>, genId: nat, replyId: nat) returns (flushed: seq<string>)
    modifies seg, ttsQ
    ensures flushed == if old(seg.buffer) == "" then [] else [old(seg.buffer)]
    ensures ttsQ.items == TtsPushAll(old(ttsQ.items), Units(genId, replyId, old(seg.segIdx), flushed), ttsQ.maxsize)
  {
    var before := seg.segIdx;
    flushed := seg.Flush();
    PushSegments(ttsQ, genId, replyId, before, flushed);
  }

  lemma FlushStep(items0: seq<TtsUnit>, queued: seq<TtsUnit>, genId: nat, replyId: nat, cut: seq<string>, flushed: seq<string>, maxsize: int)
    requires queued == TtsPushAll(items0, Units(genId, replyId, 0, cut), maxsize)
    ensures TtsPushAll(queued, Units(genId, replyId, |cut|, flushed), maxsize)
         == TtsPushAll(items0, Units(genId, replyId, 0, cut + flushed), maxsize)
  {
    UnitsAppend(genId, replyId, 0, cut, flushed);
    TtsPushAllAppend(items0, Units(genId, replyId, 0, cut), Units(genId, replyId, |cut|, flushed), maxsize);
  }

  /** The shared state of `main()` in pipeline/asr_llm_tts_stream.py. */
  class VoiceSession {
    var history: seq<LlmMessage>
    var responseCounter: nat
    const maxTurns: nat
    const interrupt: InterruptController
    const userQ: LatestQueue<string>
    const gen: GenCounter
    const ttsQ: BoundedQueue<TtsUnit>
    const audioQ: BoundedQueue<AudioUnit>
    const reset: ResetFlag

    /** Neither queue holds a unit from a generation that has not started,
        and the synthesis queue is within its capacity and holds no blank
        text. */
    predicate QueuesCurrent()
      reads gen, ttsQ, audioQ
    {
      && ttsQ.maxsize == TtsQueueSize
      && TtsQueueOk(ttsQ.items, ttsQ.maxsize, gen.current)
      && forall k :: 0 <= k < |audioQ.items| ==> audioQ.items[k].genId <= gen.current
    }

    constructor (systemPrompt: string)
      ensures history == [TextMessage("system", systemPrompt)] && responseCounter == 0 && maxTurns == MaxTurns
      ensures fresh(interrupt) && interrupt.token == null
      ensures fresh(userQ) && fresh(userQ.q) && userQ.q.items == [] && userQ.q.maxsize == 1
      ensures fresh(gen) && gen.current == 0
      ensures fresh(ttsQ) && ttsQ.items == [] && fresh(audioQ) && audioQ.items == [] && audioQ.maxsize == AudioQueueSize
      ensures fresh(reset) && !reset.isSet
      ensures QueuesCurrent()
    {
      history := [TextMessage("system", systemPrompt)];
      responseCounter := 0;
      maxTurns := MaxTurns;
      interrupt := new InterruptController();
      userQ := new LatestQueue(1);
      gen := new GenCounter();
      ttsQ := new BoundedQueue(TtsQueueSize);
      audioQ := new BoundedQueue(AudioQueueSize);
      reset := new ResetFlag();
    }

    /** `on_speech_start`: cancel the running reply, advance the
        generation, empty both queues and ask playback to clear. */
    method OnSpeechStart() returns (newGenId: nat)
      modifies interrupt.token, gen, ttsQ, audioQ, reset
      ensures interrupt.token == old(interrupt.token)
      ensures interrupt.token != null ==> interrupt.token.cancelled
      ensures gen.current == old(gen.current) + 1 && newGenId == gen.current
      ensures ttsQ.items == [] && audioQ.items == [] && reset.isSet
      ensures old(QueuesCurrent()) ==> QueuesCurrent()
    {
      interrupt.Cancel();
      newGenId := gen.Bump();
      ttsQ.Clear();
      audioQ.Clear();
      reset.isSet := true;
    }

    /** One reply of `llm_tts_loop` for a popped transcript: record the user
        turn, replace the token, start a new generation and reply number,
        stream the reply into the synthesis queue, and, only when it
        completes with non-blank text, flush the rest of the buffer and
        commit the stripped reply. */
    method Turn(userText: string, s: Stream, expired: seq<bool>) returns (outcome: Result<string>)
      requires |expired| == |s.chunks|
      modifies this, interrupt, interrupt.token, gen, ttsQ
      ensures outcome == StreamText(s)
      ensures history == CommitReply(AfterUser(old(history), userText, maxTurns), outcome, maxTurns)
      ensures gen.current == old(gen.current) + 1 && responseCounter == old(responseCounter) + 1
      ensures ttsQ.items == TtsPushAll(old(ttsQ.items), Units(gen.current, responseCounter, 0, TurnTexts(DefaultConfig, s, expired)), ttsQ.maxsize)
      ensures fresh(interrupt.token) && interrupt.token != null && !interrupt.token.cancelled
      ensures old(interrupt.token) != null ==> old(interrupt.token).cancelled
      ensures old(QueuesCurrent()) ==> QueuesCurrent()
    {
      if QueuesCurrent() {
        TurnKeepsQueuesOk(ttsQ.items, ttsQ.maxsize, gen.current, responseCounter + 1, TurnTexts(DefaultConfig, s, expired));
      }
      history := history + [TextMessage("user", userText)];
      history := TrimHistory(history, maxTurns);
      var token := interrupt.NewToken();
      var genId := gen.Bump();
      responseCounter := responseCounter + 1;
      var replyId := responseCounter;
      outcome := SpeakReply(s, expired, ttsQ, genId, replyId);
      if outcome.Err? {
        return;
      }
      var assistantText := Strip(outcome.value);
      if assistantText != "" {
        history := history + [TextMessage("assistant", assistantText)];
        history := TrimHistory(history, maxTurns);
      }
    }

    /** One iteration of `llm_tts_loop`: an empty mailbox is the `pop`
        timing out. */
    method LlmTtsLoopStep(s: Stream, expired: seq<bool>) returns (outcome: Option<Result<string>>)
      requires |expired| == |s.chunks|
      modifies this, interrupt, interrupt.token, gen, ttsQ, userQ.q
      ensures old(userQ.q.items) == [] ==>
        && outcome == None && history == old(history) && userQ.q.items == []
        && gen.current == old(gen.current) && ttsQ.items == old(ttsQ.items)
        && responseCounter == old(responseCounter) && interrupt.token == old(interrupt.token)
        && (interrupt.token != null ==> interrupt.token.cancelled == old(interrupt.token.cancelled))
      ensures old(userQ.q.items) != [] ==>
        && userQ.q.items == old(userQ.q.items)[1..]
        && outcome == Some(StreamText(s))
        && history == CommitReply(AfterUser(old(history), old(userQ.q.items)[0], maxTurns), StreamText(s), maxTurns)
        && gen.current == old(gen.current) + 1 && responseCounter == old(responseCounter) + 1
        && ttsQ.items == TtsPushAll(old(ttsQ.items), Units(gen.current, responseCounter, 0, TurnTexts(DefaultConfig, s, expired)), ttsQ.maxsize)
        && fresh(interrupt.token) && interrupt.token != null && !interrupt.token.cancelled
        && (old(interrupt.token) != null ==> old(interrupt.token).cancelled)
      ensures old(QueuesCurrent()) ==> QueuesCurrent()
    {
      var userText := userQ.Pop();
      if userText.None? {
        return None;
      }
      var r := Turn(userText.value, s, expired);
      outcome := Some(r);
    }

    /** One iteration of `tts_worker`. A unit of an older generation is
        dropped before synthesis. `bargeIn` says whether speech starts
        while the unit is being synthesized (`on_speech_start` runs on the
        recorder's thread); `synthesized` is what `tts.synthesize` returns
        or raises. The samples are forwarded only if the generation is
        still current after synthesis. */
    method TtsStep(synthesized: Result<(seq<Sample>, int)>, bargeIn: bool) returns (forwarded: Option<AudioUnit>)
      modifies interrupt.token, gen, ttsQ, audioQ, reset
      ensures interrupt.token == old(interrupt.token)
      ensures old(ttsQ.items) == [] ==>
        && forwarded == None && ttsQ.items == [] && audioQ.items == old(audioQ.items)
        && gen.current == old(gen.current) && reset.isSet == old(reset.isSet)
        && (interrupt.token != null ==> interrupt.token.cancelled == old(interrupt.token.cancelled))
      ensures old(ttsQ.items) != [] ==>
        var u := old(ttsQ.items)[0];
        var synthesizes := u.genId == old(gen.current);
        && gen.current == old(gen.current) + (if synthesizes && bargeIn then 1 else 0)
        && (synthesizes && bargeIn ==>
              && forwarded == None && ttsQ.items == [] && audioQ.items == [] && reset.isSet
              && (interrupt.token != null ==> interrupt.token.cancelled))
        && (!(synthesizes && bargeIn) ==>
              && ttsQ.items == old(ttsQ.items)[1..] && reset.isSet == old(reset.isSet)
              && (interrupt.token != null ==> interrupt.token.cancelled == old(interrupt.token.cancelled))
              && forwarded == (if synthesizes && synthesized.Ok?
                               then Some(AudioUnit(u.genId, u.replyId, u.segIdx, synthesized.value.0, synthesized.value.1, |u.text|))
                               else None)
              && audioQ.items == old(audioQ.items) + (if forwarded.Some? then [forwarded.value] else []))
      ensures forwarded.Some? ==> forwarded.value.genId == gen.current
      ensures old(QueuesCurrent()) ==> QueuesCurrent()
    {
      forwarded := None;
      if QueuesCurrent() && ttsQ.items != [] {
        TtsQueueOkTail(ttsQ.items, ttsQ.maxsize, gen.current);
      }
      var item := ttsQ.GetNowait();
      if item.None? {
        return;
      }
      var u := item.value;
      var id := gen.Get();
      if u.genId != id {
        return;
      }
      if bargeIn {
        var _ := OnSpeechStart();
        return;
      }
      if synthesized.Err? {
        return;
      }
      id := gen.Get();
      if u.genId != id {
        return;
      }
      forwarded := Some(AudioUnit(u.genId, u.replyId, u.segIdx, synthesized.value.0, synthesized.value.1, |u.text|));
      audioQ.Put(forwarded.value);
    }

    /** One iteration of `playback_worker`: honour a pending reset, then
        either report the finished segments (nothing arrived) or start
        playing the next unit unless its generation is stale. The
        countdown of pending segments stays equal to the samples still to
        be played. */
    method PlaybackStep(buf: PlaybackBuffer) returns (done: seq<SegmentState>, started: Option<SegmentState>)
      requires buf.Accounted()
      modifies audioQ, buf, reset
      ensures buf.Accounted() && !reset.isSet
      ensures var c0 := if old(reset.isSet) then [] else old(buf.chunks);
        var off0 := if old(reset.isSet) then 0 else old(buf.offset);
        var s0 := if old(reset.isSet) then [] else old(buf.segments);
        var d0 := if old(reset.isSet) then [] else old(buf.completed);
        && buf.offset == off0
        && (old(audioQ.items) == [] ==>
              && audioQ.items == [] && started == None && done == d0 && buf.completed == []
              && buf.chunks == c0 && buf.segments == s0)
        && (old(audioQ.items) != [] ==>
              var u := old(audioQ.items)[0];
              && audioQ.items == old(audioQ.items)[1..] && done == [] && buf.completed == d0
              && started == (if u.genId == gen.current
                             then Some(SegmentState(u.replyId, u.segIdx, |u.samples|, u.textLen))
                             else None)
              && buf.chunks == c0 + (if started.Some? then [u.samples] else [])
              && buf.segments == s0 + (if started.Some? then [started.value] else []))
      ensures old(QueuesCurrent()) ==> QueuesCurrent()
    {
      done, started := [], None;
      if reset.isSet {
        buf.Clear();
        reset.isSet := false;
      }
      var item := audioQ.GetNowait();
      if item.None? {
        done := buf.PopCompleted();
        return;
      }
      var u := item.value;
      assert audioQ.items == old(audioQ.items)[1..];
      var id := gen.Get();
      if u.genId != id {
        return;
      }
      started := Some(SegmentState(u.replyId, u.segIdx, |u.samples|, u.textLen));
      buf.Push(u.samples, started.value);
    }
  }

  /** A reply's units carry the new generation id, so pushing them keeps
      the synthesis queue consistent with the advanced counter. */
  lemma TurnKeepsQueuesOk(items: seq<TtsUnit>, maxsize: int, current: nat, replyId: nat, texts: seq<string>)
    requires TtsQueueOk(items, maxsize, current)
    ensures TtsQueueOk(TtsPushAll(items, Units(current + 1, replyId, 0, texts), maxsize), maxsize, current + 1)
  {
    TtsPushAllKeepsOk(items, Units(current + 1, replyId, 0, texts), maxsize, current + 1);
  }

  lemma TtsQueueOkTail(items: seq<TtsUnit>, maxsize: int, current: nat)
    requires items != [] && TtsQueueOk(items, maxsize, current)
    ensures TtsQueueOk(items[1..], maxsize, current)
  {
    forall k | 0 <= k < |items| - 1
      ensures !AllSpace(items[1..][k].text) && items[1..][k].genId <= current
    {
      assert items[1..][k] == items[k + 1];
    }
  }
}
