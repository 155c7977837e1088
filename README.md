# Barge-in for a spoken-dialogue pipeline, modelled in Dafny

This project models the core of a spoken-dialogue assistant: speech is cut
into utterances by a voice-activity segmenter, transcribed, answered by a
streaming LLM backend, and, in the speech pipeline, cut into sentence-sized
segments, synthesised and played back. The model's focus is **barge-in**:
the user may start talking at any moment. The assistant must then:

- stop generating;
- forget everything queued for synthesis or playback;
- keep its conversation history free of half-finished replies.

The model has these parts:

- **`Errors`, `Text`.** The exceptions the code raises, as error values. The
  Python string operations it relies on: `strip` over Python's whitespace
  set, `join`, ASCII `lower`.
- **`Cancellation`, `Interrupts`.** The cancellation token, and the
  controller that hands out one live token at a time.
- **`Queues`.** `queue.Queue` as far as its non-blocking calls go. The
  evict-oldest push loop the pipelines write out by hand. The latest-wins
  mailbox `LatestQueue`.
- **`History`.** The conversation window. It keeps the system prompt and the
  last `max_turns` exchanges. A reply is committed only when it finished and
  is non-empty.
- **`LlmBase`.** Chunks, and the rule every consumer uses to fold a stream:
  collect non-empty deltas and stop after the first final chunk. A generator
  that raises is a `Stream` that ends in `Raise(error)`. Also the default
  `generate`, the non-streaming adapter and `_parts_to_text`.
- **`Gemini`, `Qwen`.** The two backends:
  - their configuration checks;
  - message conversion and prompt building;
  - how their streams end: cancellation, a failed worker thread, a final
    chunk yielded from `finally`.
- **`TextSegmenter`.** The inline segmenter of `llm_tts_loop`. It cuts after
  a punctuation mark once at least `min_chars` characters are buffered. It
  hard-cuts at `max_chars` and flushes the buffer when `max_wait_s` has
  elapsed.
- **`Playback`.** The playback buffer: `push`, `pop` into a zero-filled
  output array, per-segment frame accounting, and the audio callback.
- **`VadSegmenter`.** `VADSegmenter`: the constructor's checks and its frame
  counts under truncating division. The padding ring, the trigger, the
  silence and length cut-offs, and the speech-start callback.
- **`ServicesCommon`.** The request checks shared by the HTTP services: the
  unknown-config-key rejection with its sorted key list, and the WAV
  content-type and empty-upload checks.
- **`AsrTest`.** The two queueing policies of the listen/recognise loop.
- **`ChatLoop`.** The text-only barge-in loop of `asr_llm_stream.py`.
- **`Pipeline`.** The speech pipeline of `asr_llm_tts_stream.py`:
  - the generation counter that marks queued work as stale;
  - pushing segments into the text-to-speech queue;
  - one reply turn of `llm_tts_loop`;
  - one round of `tts_worker` and of `playback_worker`;
  - the speech-start handler.

  The session invariant `QueuesCurrent` is preserved by every step: no queued
  item is blank and no item is newer than the current generation. A unit
  forwarded to playback always belongs to the current generation.

Clocks, threads and the engines behind the code become parameters:

- **Cancellation.** One boolean per stream chunk says whether the token was
  seen as cancelled when that chunk arrived.
- **Timeout.** One boolean per chunk says whether `max_wait_s` had elapsed
  at the segmenter's timeout test.
- **Speech start during synthesis.** One boolean says whether the user
  started speaking while a segment was being synthesised.
- **Engine results.** Recognition, synthesis and the SDK's stream are given
  results, including their failures.

## Model

| member | source | states |
|---|---|---|
| Errors.CancelledIsRuntimeError | src/llm/base.py:88-89 | `CancelledError` is a `RuntimeError`; value and HTTP errors are not |
| Cancellation.CancelToken.constructor | src/llm/base.py:74-75 | a new token is not cancelled |
| Cancellation.CancelToken.Cancel | src/llm/base.py:77-78 | after `cancel` the token reports cancelled |
| Cancellation.CancelToken.IsCancelled | src/llm/base.py:80-81 | returns the token's state |
| Cancellation.CancelToken.ThrowIfCancelled | src/llm/base.py:83-85 | fails with `CancelledError` exactly when the token is cancelled |
| Interrupts.InterruptController.constructor | pipeline/asr_llm_tts_stream.py:50-52 | no token has been handed out |
| Interrupts.InterruptController.NewToken | pipeline/asr_llm_tts_stream.py:54-59 | the previous token, if any, ends up cancelled; the new one is fresh, live and becomes the current token |
| Interrupts.InterruptController.Cancel | pipeline/asr_llm_tts_stream.py:61-64 | cancels the current token (if any) and keeps it as the current one |
| Queues.Newest | pipeline/asr_llm_tts_stream.py:31-40 | the last `n` items of a sequence, as a suffix of the right length |
| Queues.EvictPushShape | pipeline/asr_llm_tts_stream.py:31-40 | after an evict-oldest push the queue respects its capacity, ends with the new item, and keeps a suffix of the old items in order |
| Queues.EvictPush | pipeline/asr_llm_tts_stream.py:31-40 | push after dropping the oldest items until there is room |
| Queues.EvictPushSingleSlot | pipeline/asr_llm_tts_stream.py:27-40 | with the default capacity of one the mailbox afterwards holds exactly the newest item |
| Queues.EvictOneStep | pipeline/asr_llm_tts_stream.py:36-40 | dropping the oldest item from a full queue does not change where the push loop ends up |
| Queues.BoundedQueue.constructor | pipeline/asr_llm_tts_stream.py:160-161 | an empty queue with the given capacity |
| Queues.BoundedQueue.PutNowait | pipeline/asr_llm_tts_stream.py:201 | appends exactly when the queue is not full, otherwise reports `queue.Full` and changes nothing |
| Queues.BoundedQueue.GetNowait | pipeline/asr_llm_tts_stream.py:185 | removes and returns the oldest item, or reports `queue.Empty` on an empty queue |
| Queues.BoundedQueue.Put | pipeline/asr_llm_tts_stream.py:363-365 | the item is appended at the tail |
| Queues.BoundedQueue.Clear | pipeline/asr_llm_tts_stream.py:182-194 | draining until `queue.Empty` leaves the queue empty |
| Queues.BoundedQueue.PutEvictingOldest | pipeline/asr_llm_tts_stream.py:199-207 | the hand-written retry loop leaves exactly the evict-oldest result |
| Queues.LatestQueue.constructor | pipeline/asr_llm_tts_stream.py:28-29 | an empty inner queue of the given capacity |
| Queues.LatestQueue.Push | pipeline/asr_llm_tts_stream.py:31-40 | never blocks; the queue afterwards is the evict-oldest result |
| Queues.LatestQueue.Pop | pipeline/asr_llm_tts_stream.py:42-46 | the oldest item, or `None` when nothing is queued |
| Text.LeadingSpaces | src/llm/Gemini/model.py:235 | the length of the whitespace prefix: all before it is whitespace, the next character is not |
| Text.TrailingStart | src/llm/Gemini/model.py:235 | where the whitespace suffix starts, with a non-space character just before it |
| Text.Strip | src/llm/Gemini/model.py:235 | `str.strip`: a contiguous slice of the input with no whitespace at either end and only whitespace around it, empty exactly when the input is all whitespace |
| Text.StripNoOp | src/llm/Gemini/model.py:235 | stripping a string with no surrounding whitespace returns it unchanged |
| Text.StripIdempotent | src/llm/Gemini/model.py:235 | stripping twice is stripping once |
| Text.JoinSnoc | src/llm/Gemini/model.py:191 | joining one more piece appends the separator and the piece |
| Text.ConcatSnoc | src/llm/base.py:129 | concatenating one more piece appends it |
| Text.ConcatAppend | src/llm/base.py:129 | concatenation distributes over appending lists |
| Text.ConcatIsJoinEmpty | src/llm/base.py:129 | `"".join` is plain concatenation |
| Text.LowerChar | services/common.py:37 | ASCII upper-case letters become lower-case letters; every other character is unchanged |
| Text.Lower | services/common.py:37 | `str.lower` character by character, same length |
| Text.LowerIdempotent | services/common.py:37 | lower-casing twice is lower-casing once |
| Text.Firsts | src/recorder/vad_segmenter.py:66 | the first components of pairs in order: a ring's frames, a dictionary's keys |
| History.TrimHistoryWindow | pipeline/asr_llm_tts_stream.py:233-237 | a short history is kept as is; a long one becomes the system message plus the last `2 * max_turns` messages |
| History.TrimHistoryIdempotent | pipeline/asr_llm_tts_stream.py:233-237 | trimming a trimmed history changes nothing |
| History.TrimHistoryKeepsEnds | pipeline/asr_llm_stream.py:97-101 | trimming keeps the first (system) and the last message |
| History.TrimHistoryZeroTurns | pipeline/asr_llm_stream.py:97-101 | with `max_turns` zero the slice `hist[-0:]` keeps everything, so the history grows by a second copy of the system message |
| History.CommitReplyRule | pipeline/asr_llm_tts_stream.py:323-335 | a cancelled, failed or blank reply leaves the history unchanged; otherwise the stripped reply becomes the last message and the system message stays first |
| History.TrimHistory | pipeline/asr_llm_tts_stream.py:233-237 | the window: a history of at most `1 + 2 * max_turns` messages is kept whole; a longer one becomes the first message followed by the last `2 * max_turns` (with `max_turns` zero, by the whole history, as `hist[-0:]` gives) |
| History.AfterUser | pipeline/asr_llm_tts_stream.py:268-269 | the user message is appended and the window applied |
| History.CommitReply | pipeline/asr_llm_tts_stream.py:323-335 | a cancelled, failed or blank reply leaves the history as it is; otherwise the stripped reply is appended as an assistant message and the window applied |
| LlmBase.FinalIndex | src/llm/base.py:120-127 | the position of the first final chunk (or the length): no chunk before it is final |
| LlmBase.Pulled | src/llm/base.py:120-127 | the number of chunks a consumer pulls never exceeds the stream |
| LlmBase.Deltas | src/llm/base.py:124-125 | the text deltas of the chunks, position by position |
| LlmBase.CollectStep | src/llm/base.py:124-125 | appending a delta (or skipping an empty one) keeps the collected text equal to the deltas read so far |
| LlmBase.ReadPast | src/llm/base.py:126-127 | reading a final chunk fixes the stream's text; reading any other chunk means the end has not been reached |
| LlmBase.DeltasSnoc | src/llm/base.py:120-125 | one more chunk contributes its delta at the end |
| LlmBase.StreamTextClosed | src/llm/base.py:120-129 | a stream with a final chunk yields the concatenated deltas, whatever the generator would do afterwards |
| LlmBase.StreamTextOpen | src/llm/base.py:120-129 | without a final chunk the text is the concatenated deltas if the generator returns, and its exception if it raises |
| LlmBase.StreamTextIgnoresTail | src/llm/base.py:126-127 | nothing after the first final chunk can change the outcome |
| LlmBase.StreamText | src/llm/base.py:120-129 | the result of consuming a stream: the deltas up to and including the first final chunk, else all deltas when the generator returns, else its exception |
| LlmBase.FinalIndexPrefix | src/llm/base.py:126-127 | chunks after the first final one do not move it |
| LlmBase.GenerateStopsAtFinal | src/llm/base.py:111-129 | with no cancellation observed, `generate` returns the deltas up to and including the first final chunk, with the config's backend and model |
| LlmBase.GenerateRunsOut | src/llm/base.py:111-129 | a stream without a final chunk gives its full text, or the generator's exception |
| LlmBase.Generate | src/llm/base.py:111-129 | the loop returns exactly the specified result, including `CancelledError` at the first chunk seen after cancellation |
| LlmBase.GenerateResult | src/llm/base.py:111-129 | `generate` as a value: `CancelledError` at the first chunk read after cancellation is seen, otherwise the stream's text in a response carrying the config's backend and model |
| LlmBase.AdapterStream | src/llm/base.py:149-156 | the adapter yields at most one chunk, and yields one exactly when it is not cancelled before or after the blocking call and that call succeeds; that chunk is the call's whole text marked final and the generator returns; otherwise it raises `CancelledError` when cancelled before the call or after a successful one, and the call's own error when the call fails |
| LlmBase.AdapterGenerate | src/llm/base.py:149-156 | `generate` over the adapter returns the blocking call's text, or the cancellation or the call's error |
| LlmBase.PartLinesAppend | src/llm/Gemini/model.py:216-235 | the rendered lines of two part lists concatenate |
| LlmBase.PartLine | src/llm/Gemini/model.py:216-234 | a non-empty text part gives its text, a tool call or tool result part the JSON dump of its payload, anything else nothing |
| LlmBase.PartLines | src/llm/Gemini/model.py:216-234 | the rendered lines of the parts, in order |
| LlmBase.PartsToText | src/llm/Gemini/model.py:216-235 | the rendered text is stripped, and empty exactly when the joined lines are all whitespace |
| LlmBase.NormalRoleUser | src/llm/Gemini/model.py:163 | the role `"User"` normalises to `"user"` |
| LlmBase.NormalRole | src/llm/Gemini/model.py:163 | the role normalised as the structured conversion does: stripped and lower-cased |
| LlmBase.LowerUser | src/llm/Gemini/model.py:163 | lower-casing `"User"` gives `"user"` |
| Gemini.CheckConfig | src/llm/Gemini/model.py:29-35 | accepts exactly a config with both an API key and a model, otherwise the matching `ValueError`, the key checked first |
| Gemini.Reconstruct | src/llm/Gemini/model.py:83-89 | the accumulated text always grows by the delta; a piece extending the accumulated text is taken as cumulative, anything else as a delta |
| Gemini.FoldAccumulates | src/llm/Gemini/model.py:69-92 | the yielded deltas concatenate to the accumulated text; every yielded chunk is non-empty and not final |
| Gemini.FoldCumulative | src/llm/Gemini/model.py:83-89 | when the SDK sends cumulative text, the deltas reconstruct its last piece exactly |
| Gemini.IncrementalEchoIsMisread | src/llm/Gemini/model.py:84-86 | an incremental piece that happens to start with the text so far is misread as cumulative (`"ha"`, `"ha!"` yields `"ha!"`, not `"haha!"`) |
| Gemini.Cumulative | src/llm/Gemini/model.py:84 | each SDK piece extends the one before it |
| Gemini.Fold | src/llm/Gemini/model.py:69-92 | the non-empty deltas the generator yields and the accumulated text |
| Gemini.StreamPieces | src/llm/Gemini/model.py:52-96 | the generator produces exactly the stream described by `StreamSpec` for each cancellation point |
| Gemini.StreamSpec | src/llm/Gemini/model.py:52-96 | the stream as written: the deltas up to the cancellation point, then `CancelledError`; a cancellation seen only in `finally` gives all deltas and the SDK's ending without a final chunk; otherwise the final chunk from `finally`, then the SDK's ending, even an error |
| Gemini.StreamCancelled | src/llm/Gemini/model.py:76-77 | a cancellation observed during the SDK stream yields no final chunk and ends in `CancelledError` |
| Gemini.StreamHidesSdkError | src/llm/Gemini/model.py:93-95 | as written, an SDK error after the last piece is swallowed: consumers see a successful reply |
| Gemini.GenerateHidesSdkError | src/llm/Gemini/model.py:127-146 | the backend's `generate` reports success despite the SDK error |
| Gemini.StreamFixedReportsSdkError | src/llm/Gemini/model.py:93-95 | with the final chunk yielded only on normal completion, an SDK error reaches the consumer and nothing else changes |
| Gemini.StreamSpecFixed | src/llm/Gemini/model.py:93-95 | the corrected stream: the final chunk only after the SDK stream ends normally |
| Gemini.PartToSdk | src/llm/Gemini/model.py:238-280 | a part converts exactly when it renders as a line; a text part carries that line; only tool parts can become function parts |
| Gemini.TextParts | src/llm/Gemini/model.py:260 | one text part per line |
| Gemini.PartsToSdkMatchesLines | src/llm/Gemini/model.py:238-280 | the SDK parts correspond one to one with the rendered lines, and are exactly those lines when the SDK has no function-part factories |
| Gemini.PartsToSdk | src/llm/Gemini/model.py:238-280 | the SDK parts of the parts that convert, in order |
| Gemini.MessageContent | src/llm/Gemini/model.py:162-189 | a message with parts and a non-system role becomes content; the role is model exactly for an assistant, user for anything else |
| Gemini.SystemLine | src/llm/Gemini/model.py:162-170 | a system message with parts contributes its rendered text, and exactly the convertible messages that give no content do |
| Gemini.ContentsOf | src/llm/Gemini/model.py:160-189 | the contents of the non-system messages whose parts convert, in order |
| Gemini.SystemLines | src/llm/Gemini/model.py:159-170 | the rendered text of the system messages that have it, in order |
| Gemini.ContentsOfAppend | src/llm/Gemini/model.py:159-192 | contents come out in message order |
| Gemini.SystemLinesAppend | src/llm/Gemini/model.py:159-192 | system lines come out in message order |
| Gemini.MessagesToContentsCount | src/llm/Gemini/model.py:159-192 | every convertible message lands in exactly one of the two outputs |
| Gemini.MessagesToContents | src/llm/Gemini/model.py:152-192 | the system instruction (system lines joined by newlines) and the contents |
| Gemini.ConvertibleIndicesShift | src/llm/Gemini/model.py:164-166 | a message counts as convertible exactly when its parts convert to something |
| Gemini.NoSystemInstruction | src/llm/Gemini/model.py:191 | with no system message the system instruction is empty |
| Gemini.PromptBlock | src/llm/Gemini/model.py:200-211 | a message contributes a block exactly when its text is non-empty and its role is one of the four known ones; the block is the header, a newline and the text |
| Gemini.RoleHeader | src/llm/Gemini/model.py:204-211 | the block header for each of the four known roles, none for any other |
| Gemini.PromptBlocks | src/llm/Gemini/model.py:199-211 | one block per message with non-empty text and a known role, in order |
| Gemini.PromptEndsWithCue | src/llm/Gemini/model.py:212-213 | the prompt always ends with the assistant cue, after a blank line when there are blocks |
| Gemini.MessagesToPrompt | src/llm/Gemini/model.py:198-213 | the fallback prompt: the blocks and the assistant cue separated by blank lines |
| Gemini.PromptRoleNotNormalised | src/llm/Gemini/model.py:163-189 | a `"User"` message is dropped from the fallback prompt but becomes user content in structured mode |
| Qwen.CheckConfig | src/llm/Qwen_official/model.py:49-51 | accepts exactly a config naming a model |
| Qwen.AutoDtype | src/llm/Qwen_official/model.py:218-223 | with CUDA, bfloat16 when supported else float16; without CUDA, float32 |
| Qwen.DtypeAlias | src/llm/Qwen_official/model.py:224-231 | the three alias pairs of the lower-cased name, none for any other name |
| Qwen.ResolveDtype | src/llm/Qwen_official/model.py:216-231 | empty or `"auto"` picks by device; other names are looked up case-insensitively; anything else is a `ValueError` naming the lower-cased dtype |
| Qwen.ResolveDtypeIgnoresCase | src/llm/Qwen_official/model.py:224 | explicit dtype names are case-insensitive |
| Qwen.UpperAutoRejected | src/llm/Qwen_official/model.py:218-231 | `"AUTO"` escapes the auto test and is rejected after lower-casing |
| Qwen.ItemFor | src/llm/Qwen_official/model.py:169-172 | unknown roles become `"user"`, known roles are kept |
| Qwen.MessageItem | src/llm/Qwen_official/model.py:163-172 | a message contributes an item exactly when its rendered text is non-empty, with the normalised role |
| Qwen.Items | src/llm/Qwen_official/model.py:161-172 | every item has a known role and non-empty content |
| Qwen.ItemHeader | src/llm/Qwen_official/model.py:185-190 | a header exists exactly for the three known roles |
| Qwen.ItemBlocksComplete | src/llm/Qwen_official/model.py:181-190 | every item yields exactly one block, header then text |
| Qwen.ItemBlocks | src/llm/Qwen_official/model.py:181-190 | one header-and-text block per item with a known role, in order |
| Qwen.FallbackPromptShape | src/llm/Qwen_official/model.py:174-192 | without a chat template the prompt is the blocks and the assistant cue, separated by blank lines |
| Qwen.MessagesToPrompt | src/llm/Qwen_official/model.py:161-192 | the chat template applied to the message items when it is enabled and available; otherwise the items' blocks and the assistant cue separated by blank lines |
| Qwen.PromptRoleNormalised | src/llm/Qwen_official/model.py:164-172 | a `"User"` message becomes a user item |
| Qwen.TextChunks | src/llm/Qwen_official/model.py:133-134 | only non-empty texts are yielded, never as final chunks |
| Qwen.TextChunksConcat | src/llm/Qwen_official/model.py:129-134 | the yielded deltas concatenate to the streamer's text |
| Qwen.TextChunksSnoc | src/llm/Qwen_official/model.py:133-134 | one more streamer text adds one chunk when it is non-empty |
| Qwen.StreamTexts | src/llm/Qwen_official/model.py:84-140 | the generator produces exactly the stream described by `StreamSpec` |
| Qwen.StreamSpec | src/llm/Qwen_official/model.py:84-140 | the non-empty streamer texts as chunks, then `CancelledError`, the thread's `RuntimeError`, or the final empty chunk |
| Qwen.StreamOutcome | src/llm/Qwen_official/model.py:127-140 | cancellation gives `CancelledError`; otherwise a failed generation thread gives `RuntimeError`, and success gives the full text |
| Qwen.GenerateOutcome | src/llm/Qwen_official/model.py:142-159 | `generate` returns the full text or the thread's failure |
| TextSegmenter.FirstSplitFrom | pipeline/asr_llm_tts_stream.py:299-306 | a split found from `i` lies within the buffer at or after `i` |
| TextSegmenter.IsSplitPoint | pipeline/asr_llm_tts_stream.py:300-305 | a position holding one of the punctuation marks with at least `min_chars` characters up to and including it |
| TextSegmenter.FirstSplit | pipeline/asr_llm_tts_stream.py:299-306 | a split found lies within the buffer |
| TextSegmenter.FirstSplitFromSpec | pipeline/asr_llm_tts_stream.py:299-306 | the scan finds the first split point at or after `i`, or reports none |
| TextSegmenter.FirstSplitSpec | pipeline/asr_llm_tts_stream.py:299-306 | the scan finds the first punctuation mark with at least `min_chars` characters up to it, and finds none exactly when there is no such mark |
| TextSegmenter.SplitAllConserves | pipeline/asr_llm_tts_stream.py:298-310 | the emitted segments and the remaining buffer concatenate to the input |
| TextSegmenter.SplitAll | pipeline/asr_llm_tts_stream.py:298-310 | repeatedly cut the buffer just after its first split point until none is left |
| TextSegmenter.SplitAllBoundaries | pipeline/asr_llm_tts_stream.py:298-310 | every emitted segment ends with punctuation and is at least `min_chars` long; the remainder has no split point |
| TextSegmenter.FirstSplitAppend | pipeline/asr_llm_tts_stream.py:299-306 | appending text does not move an existing first split |
| TextSegmenter.SplitAllAtFirst | pipeline/asr_llm_tts_stream.py:309-310 | the first segment is cut just after the first split point |
| TextSegmenter.SplitAllAppend | pipeline/asr_llm_tts_stream.py:296-310 | splitting a buffer in two steps gives the same segments as splitting it at once |
| TextSegmenter.HardCutSpec | pipeline/asr_llm_tts_stream.py:312-314 | the hard cut loses no text and creates no split point |
| TextSegmenter.HardCut | pipeline/asr_llm_tts_stream.py:312-314 | a remainder of `max_chars` characters or more gives its first `max_chars` characters as one segment |
| TextSegmenter.TimedFlush | pipeline/asr_llm_tts_stream.py:316-318 | once the wait has elapsed a non-empty remainder is emitted whole |
| TextSegmenter.StepConserves | pipeline/asr_llm_tts_stream.py:293-318 | one delta: segments plus new buffer equal old buffer plus delta, and the buffer stays free of split points |
| TextSegmenter.Step | pipeline/asr_llm_tts_stream.py:293-318 | one delta: append it, split at punctuation, then the hard cut, then the timed flush |
| TextSegmenter.StepChunks | pipeline/asr_llm_tts_stream.py:298-318 | one delta emits the punctuation segments, then at most a hard cut of `max_chars` and at most a timed flush; an elapsed wait empties the buffer |
| TextSegmenter.StepHardCutExact | pipeline/asr_llm_tts_stream.py:312-314 | exactly `max_chars` characters without punctuation are emitted as one segment |
| TextSegmenter.FeedAllSnoc | pipeline/asr_llm_tts_stream.py:292-318 | feeding one more delta continues from the previous buffer |
| TextSegmenter.FeedAll | pipeline/asr_llm_tts_stream.py:292-318 | the segments emitted and the buffer left after feeding the deltas one by one |
| TextSegmenter.ConcatRegroup | pipeline/asr_llm_tts_stream.py:296 | regrouping the text of two consecutive steps |
| TextSegmenter.FeedAllConserves | pipeline/asr_llm_tts_stream.py:292-318 | over a whole stream, the segments and the final buffer concatenate to all deltas |
| TextSegmenter.StepScanOnly | pipeline/asr_llm_tts_stream.py:298-314 | below `max_chars` with no elapsed wait, a step is only the punctuation scan |
| TextSegmenter.FeedAllSplitOnly | pipeline/asr_llm_tts_stream.py:292-318 | a short reply fed in any number of deltas is segmented as if it arrived at once |
| TextSegmenter.Segmenter.constructor | pipeline/asr_llm_tts_stream.py:167-170 | an empty buffer and segment counter with the given limits |
| TextSegmenter.Segmenter.FindSplit | pipeline/asr_llm_tts_stream.py:299-306 | the scan loop returns the first split point |
| TextSegmenter.Segmenter.ScanBuffer | pipeline/asr_llm_tts_stream.py:298-310 | the emit loop leaves the specified segments and remainder, counting each segment |
| TextSegmenter.Segmenter.Feed | pipeline/asr_llm_tts_stream.py:293-318 | one delta updates buffer and counter as specified; an empty delta changes nothing |
| TextSegmenter.Segmenter.Flush | pipeline/asr_llm_tts_stream.py:328-330 | a non-empty buffer is emitted as a last segment and cleared |
| Playback.FlattenAppend | pipeline/asr_llm_tts_stream.py:93 | appending a chunk appends its samples |
| Playback.UnreadAppend | pipeline/asr_llm_tts_stream.py:91-94 | a pushed chunk is played after everything already queued |
| Playback.Unread | pipeline/asr_llm_tts_stream.py:79-80 | the samples still to be played: the current chunk from the read offset, then the later chunks |
| Playback.Advance | pipeline/asr_llm_tts_stream.py:102-112 | the read position after a pop stays within the first remaining chunk |
| Playback.AdvanceUnread | pipeline/asr_llm_tts_stream.py:102-112 | a pop removes exactly `min(need, unread)` samples from the front of what is unread |
| Playback.UnreadStep | pipeline/asr_llm_tts_stream.py:103-112 | one copy round takes the next samples of the current chunk and drops the chunk once it is used up |
| Playback.RoundState | pipeline/asr_llm_tts_stream.py:102-112 | one round keeps the loop's bookkeeping consistent with the samples still to come |
| Playback.Zeros | pipeline/asr_llm_tts_stream.py:99-100 | a buffer of silence of the given length |
| Playback.FillStep | pipeline/asr_llm_tts_stream.py:107 | copying a piece into the zero-filled output extends the filled prefix |
| Playback.CopyInto | pipeline/asr_llm_tts_stream.py:107 | the slice assignment changes exactly the target range |
| Playback.PopRound | pipeline/asr_llm_tts_stream.py:103-112 | one loop round fills the next piece of the output and advances the read position, and the loop makes progress |
| Playback.SumFramesAppend | pipeline/asr_llm_tts_stream.py:94 | the frame count of appended segment lists adds up |
| Playback.Labels | pipeline/asr_llm_tts_stream.py:67-73 | one label per segment |
| Playback.ConsumeSum | pipeline/asr_llm_tts_stream.py:115-126 | consuming `n` frames lowers the pending frame count by `min(n, pending)` |
| Playback.ConsumeSpec | pipeline/asr_llm_tts_stream.py:115-126 | played frames are taken from the oldest pending segments; a segment whose frames are used up moves to the completed list |
| Playback.ConsumeOrder | pipeline/asr_llm_tts_stream.py:115-126 | completed segments are a prefix of the pending ones in order, their frames fit in `n`, and no segment is lost or reordered |
| Playback.PlaybackBuffer.constructor | pipeline/asr_llm_tts_stream.py:77-82 | everything empty, offset zero |
| Playback.PlaybackBuffer.Clear | pipeline/asr_llm_tts_stream.py:84-89 | everything empty, offset zero, and the frame accounting holds |
| Playback.PlaybackBuffer.Push | pipeline/asr_llm_tts_stream.py:91-94 | the chunk and its segment are appended and played after everything queued; a segment whose frame count is its chunk's length keeps the accounting |
| Playback.PlaybackBuffer.Pop | pipeline/asr_llm_tts_stream.py:96-113 | returns the next `min(frames, unread)` samples padded with silence, and advances past exactly those |
| Playback.PlaybackBuffer.Consume | pipeline/asr_llm_tts_stream.py:115-126 | the segment accounting moves as `ConsumeSpec` describes; the audio is untouched |
| Playback.PlaybackBuffer.PopCompleted | pipeline/asr_llm_tts_stream.py:128-133 | returns the completed segments in order and empties that list |
| Playback.PlaybackBuffer.Callback | pipeline/asr_llm_tts_stream.py:376-380 | the output is the next `min(frames, unread)` samples padded with silence; exactly those samples leave the unread audio; the segment accounting moves as `ConsumeSpec` describes for that many frames, so the pending frame count drops by exactly what was played and accounting holds |
| VadSegmenter.TruncDivNonNegative | src/recorder/vad_segmenter.py:30-32 | `int(a / b)` for non-negative `a` is floor division |
| VadSegmenter.TruncDiv | src/recorder/vad_segmenter.py:30-32 | `int(a / b)`: division rounding toward zero |
| VadSegmenter.TruncDivNegative | src/recorder/vad_segmenter.py:30-32 | `int(a / b)` for negative `a` rounds toward zero |
| VadSegmenter.TruncDivExample | src/recorder/vad_segmenter.py:30-32 | `int(-7 / 2)` is -3 where floor division gives -4 |
| VadSegmenter.NewVad | src/recorder/vad_segmenter.py:13-32 | accepts exactly valid frame lengths, sample rates and aggressiveness, checked in that order with the matching message; the frame counts are the truncated quotients |
| VadSegmenter.DefaultCounts | src/recorder/config.py:8-13 | with the default configuration at 16 kHz and 20 ms: 320 samples per frame, 15 padding frames, 30 silence frames, 750 frames at most |
| VadSegmenter.CountVoiced | src/recorder/vad_segmenter.py:58 | the voiced count never exceeds the ring's size |
| VadSegmenter.Segment | src/recorder/vad_segmenter.py:40-80 | the loop returns the specified samples and calls the speech-start hook the specified number of times; a negative padding is the deque's `ValueError` |
| VadSegmenter.SegmentFrame | src/recorder/vad_segmenter.py:49-77 | one pass of the loop body moves the local state exactly as `Step` describes, `continue` and `break` included |
| VadSegmenter.RunStopped | src/recorder/vad_segmenter.py:72-77 | after the `break` no further frame changes the state |
| VadSegmenter.RunUnfold | src/recorder/vad_segmenter.py:48-77 | the run is one step followed by the rest |
| VadSegmenter.Step | src/recorder/vad_segmenter.py:48-77 | one frame: a frame of the wrong size is skipped; before the trigger it enters the ring, and the segmenter triggers, keeping the ring's frames, once the voiced frames in it exceed the threshold; after the trigger it is kept, and the loop stops on enough silence or at the frame cap |
| VadSegmenter.Run | src/recorder/vad_segmenter.py:48-77 | the frames in order, stopping at the stop condition |
| VadSegmenter.StepPreservesInv | src/recorder/vad_segmenter.py:48-77 | one frame keeps the segmenter's invariant |
| VadSegmenter.Inv | src/recorder/vad_segmenter.py:40-80 | the ring holds at most `padding_frames` frames of the right size; nothing is kept and the hook has not run before the trigger; after it the ring is empty and the hook has run once when present; a stop comes only after the trigger, on enough silence or at the frame cap |
| VadSegmenter.TriggerKeepsInv | src/recorder/vad_segmenter.py:59-68 | the trigger keeps the invariant |
| VadSegmenter.CollectKeepsInv | src/recorder/vad_segmenter.py:69-77 | collecting a frame after the trigger keeps the invariant |
| VadSegmenter.RingFits | src/recorder/vad_segmenter.py:57 | the bounded ring only ever holds frames of the right size |
| VadSegmenter.RunPreservesInv | src/recorder/vad_segmenter.py:48-77 | the invariant holds throughout |
| VadSegmenter.FlattenLength | src/recorder/vad_segmenter.py:79 | the output has one sample per two bytes of kept frames |
| VadSegmenter.SegmentOutcome | src/recorder/vad_segmenter.py:40-80 | output size matches the kept frames; nothing is returned without a trigger; the hook fires at most once; the loop stops only on silence or the length cap after a trigger |
| VadSegmenter.SkipsMisfit | src/recorder/vad_segmenter.py:50-51 | a frame of the wrong size is skipped entirely, not even counted |
| VadSegmenter.RunKeepsTrigger | src/recorder/vad_segmenter.py:69-77 | once triggered, the segmenter stays triggered |
| VadSegmenter.NewestOfSuffix | src/recorder/vad_segmenter.py:41 | the newest `n` of a long enough suffix are the newest `n` overall |
| VadSegmenter.NewestTwice | src/recorder/vad_segmenter.py:57 | a bounded deque fed twice equals one fed once |
| VadSegmenter.RingBeforeTrigger | src/recorder/vad_segmenter.py:56-58 | before the trigger the ring is the newest `padding_frames` of the fitting frames, and nothing is kept |
| VadSegmenter.NoPaddingNeverTriggers | src/recorder/vad_segmenter.py:41-59 | with zero padding the ring stays empty and the segmenter never triggers |
| VadSegmenter.RunNoPaddingStep | src/recorder/vad_segmenter.py:57-59 | one step with zero padding does not trigger |
| ServicesCommon.LessEqTotal | services/common.py:18 | string order is total |
| ServicesCommon.LessEqTrans | services/common.py:18 | string order is transitive |
| ServicesCommon.LessEqAntisym | services/common.py:18 | string order is antisymmetric |
| ServicesCommon.Insert | services/common.py:18 | insertion keeps the elements and keeps a sorted list sorted |
| ServicesCommon.InsertFront | services/common.py:18 | a smaller element goes in front |
| ServicesCommon.InsertBehind | services/common.py:18 | a larger element goes behind the head |
| ServicesCommon.Sort | services/common.py:18 | `sorted`: a sorted permutation |
| ServicesCommon.SortKeepsMembers | services/common.py:18 | sorting keeps exactly the same members |
| ServicesCommon.NoRepeatsPermutation | services/common.py:18 | sorting a list without repeats leaves it without repeats |
| ServicesCommon.UnknownKeys | services/common.py:18 | `set(cfg) - names`: exactly the keys that are not fields, each once |
| ServicesCommon.RestrictAllKnown | services/common.py:24 | when every key is a field, filtering keeps the config unchanged |
| ServicesCommon.Restrict | services/common.py:24 | the items whose key is a field, in order |
| ServicesCommon.FilterKwargs | services/common.py:14-24 | non-dataclasses and configs with only known keys pass unchanged; otherwise HTTP 400 listing every unknown key exactly once, sorted |
| ServicesCommon.BuildConfig | services/common.py:27-33 | a missing config is an empty one; it builds exactly when the keys pass the filter and the class raises no `TypeError`; an unknown-key error is reported ahead of any `TypeError`; a `TypeError` becomes HTTP 400 naming the class; success returns the filtered config |
| ServicesCommon.BuildConfigMissingIsEmpty | services/common.py:28 | `cfg or {}`: a missing config behaves exactly as an empty one |
| ServicesCommon.BuildConfigAccepts | services/common.py:27-33 | for a dataclass, a config builds exactly when every key is a field and no `TypeError` is raised; an unknown key wins over a `TypeError` |
| ServicesCommon.ValidateContentType | services/common.py:36-44 | a missing or empty content type or one of the WAV media types (ignoring case) passes; anything else is HTTP 415 with the message |
| ServicesCommon.AcceptedContentType | services/common.py:36-37 | missing, empty, or a WAV media type once lower-cased |
| ServicesCommon.ContentTypeIgnoresCase | services/common.py:37 | the check ignores ASCII case |
| ServicesCommon.ContentTypeExamples | services/common.py:11 | `Audio/WAV` passes and `audio/mpeg` is refused |
| ServicesCommon.CheckUpload | services/common.py:47-51 | accepts exactly an accepted content type with a non-empty payload; the content type is checked first |
| AsrTest.PushAudio | pipeline/asr_test.py:46-65 | each policy leaves the queue as `Pushed` describes |
| AsrTest.DropNewestPush | pipeline/asr_test.py:48-54 | a full queue leaves the item out |
| AsrTest.Pushed | pipeline/asr_test.py:46-65 | the queue after a push under either policy |
| AsrTest.DropNewestRule | pipeline/asr_test.py:48-54 | a full queue drops the new item; otherwise it is appended |
| AsrTest.PushPolicies | pipeline/asr_test.py:46-65 | under either policy the capacity holds and survivors keep their order; keep-latest always ends with the new item |
| AsrTest.DefaultPolicy | pipeline/asr_test.py:15-18 | with the defaults, a full queue of three drops its oldest |
| AsrTest.ShownText | pipeline/asr_test.py:86-88 | a transcript is skipped exactly when it is missing or blank; otherwise it is stripped |
| AsrTest.AsrStep | pipeline/asr_test.py:78-88 | an empty queue is a timeout; otherwise the oldest utterance is taken and its transcript shown or skipped |
| ChatLoop.ListenerStep | pipeline/asr_llm_stream.py:117-128 | a blank transcript changes neither the mailbox nor the token; otherwise the running reply is cancelled and the stripped text pushed into the mailbox; the current token is never replaced |
| ChatLoop.ConsumeStream | pipeline/asr_llm_stream.py:149-154 | folding the stream gives its text or its exception |
| ChatLoop.ChatSession.constructor | pipeline/asr_llm_stream.py:75-78 | the history is the system prompt; the mailbox holds one item |
| ChatLoop.ChatSession.Turn | pipeline/asr_llm_stream.py:137-169 | the user turn is recorded and trimmed, the old token cancelled, and only a completed non-blank reply committed |
| ChatLoop.ChatSession.LlmLoopStep | pipeline/asr_llm_stream.py:132-169 | an empty mailbox changes nothing, the token included; otherwise one turn for the oldest transcript, which cancels the previous token and leaves a fresh live one current |
| ChatLoop.TurnHistory | pipeline/asr_llm_stream.py:137-169 | the system message stays first and the window stays bounded; an interrupted turn ends with the user message; a completed one ends with the user message and the stripped reply |
| Pipeline.GenCounter.constructor | pipeline/asr_llm_tts_stream.py:163 | the generation starts at zero |
| Pipeline.GenCounter.Bump | pipeline/asr_llm_tts_stream.py:172-176 | the generation grows by one and the new value is returned |
| Pipeline.GenCounter.Get | pipeline/asr_llm_tts_stream.py:178-180 | returns the current generation |
| Pipeline.ResetFlag.constructor | pipeline/asr_llm_tts_stream.py:165 | the reset flag starts clear |
| Pipeline.TtsPush | pipeline/asr_llm_tts_stream.py:196-207 | a blank segment is dropped; otherwise the queue respects its capacity, ends with the new unit, and keeps a suffix of the old units in order |
| Pipeline.PushTtsSegment | pipeline/asr_llm_tts_stream.py:196-207 | the queue afterwards is as `TtsPush` describes |
| Pipeline.Units | pipeline/asr_llm_tts_stream.py:284-289 | segment `k` of a reply is labelled with the generation, the reply and the index `after + k + 1` |
| Pipeline.UnitsAppend | pipeline/asr_llm_tts_stream.py:286-287 | the segment indices continue across batches |
| Pipeline.TtsPushAllAppend | pipeline/asr_llm_tts_stream.py:289 | pushing two batches is pushing them one after the other |
| Pipeline.TtsPushAll | pipeline/asr_llm_tts_stream.py:289 | each unit of the batch pushed in turn |
| Pipeline.TtsPushAllOne | pipeline/asr_llm_tts_stream.py:289 | pushing one unit as a batch is one push |
| Pipeline.PushUnitsStep | pipeline/asr_llm_tts_stream.py:284-289 | the next emitted segment is pushed after the earlier ones |
| Pipeline.PushSegments | pipeline/asr_llm_tts_stream.py:284-289 | emitting segments in order pushes their units in order |
| Pipeline.TtsPushKeepsOk | pipeline/asr_llm_tts_stream.py:196-207 | a push keeps the queue bounded, free of blank segments and free of future generations |
| Pipeline.TtsPushAllKeepsOk | pipeline/asr_llm_tts_stream.py:196-207 | so does pushing a whole batch |
| Pipeline.TtsPushEvictsOldest | pipeline/asr_llm_tts_stream.py:199-207 | a full queue drops exactly its oldest unit to make room |
| Pipeline.TurnTextsConserve | pipeline/asr_llm_tts_stream.py:292-330 | the segments sent to speech are never more than the reply text read; for a completed non-blank reply they are exactly the reply |
| Pipeline.Fed | pipeline/asr_llm_tts_stream.py:292-318 | the segmenter fed the deltas read before the stream stops |
| Pipeline.TurnTexts | pipeline/asr_llm_tts_stream.py:292-330 | the segments a turn sends to speech: those fed, plus the flushed buffer for a completed reply |
| Pipeline.TurnTextsInterrupted | pipeline/asr_llm_tts_stream.py:292-318 | an interrupted reply sends only what the segmenter emitted before the interruption, and the buffer is not flushed |
| Pipeline.FeedAndPush | pipeline/asr_llm_tts_stream.py:293-318 | one delta moves the segmenter as specified and pushes its segments with continuing indices |
| Pipeline.FeedTtsStep | pipeline/asr_llm_tts_stream.py:292-318 | one more delta extends both the segments fed so far and the units queued |
| Pipeline.TakeChunk | pipeline/asr_llm_tts_stream.py:292-318 | one chunk of the stream loop keeps the collected text, the segmenter and the queue in step |
| Pipeline.StreamToTts | pipeline/asr_llm_tts_stream.py:292-320 | the loop's outcome is the stream's text or exception; the segmenter and the queue hold exactly what the deltas read produce |
| Pipeline.SpeakReply | pipeline/asr_llm_tts_stream.py:279-330 | the queue receives exactly the turn's segments; the buffer is flushed only for a completed non-blank reply |
| Pipeline.FlushToTts | pipeline/asr_llm_tts_stream.py:328-330 | a non-empty buffer is pushed as a last segment |
| Pipeline.FlushStep | pipeline/asr_llm_tts_stream.py:328-330 | the flushed segment continues the numbering |
| Pipeline.VoiceSession.constructor | pipeline/asr_llm_tts_stream.py:152-165 | the history is the system prompt; queues are empty; the generation is zero; the reset flag is clear; the session invariant holds |
| Pipeline.VoiceSession.OnSpeechStart | pipeline/asr_llm_tts_stream.py:209-216 | the running reply is cancelled, the generation bumped, both queues emptied, the reset flag set, and the invariant kept |
| Pipeline.VoiceSession.Turn | pipeline/asr_llm_tts_stream.py:268-340 | the history is updated as in the text-only loop; a new generation and reply number; exactly the turn's segments are queued under them; the old token is cancelled; the invariant is kept |
| Pipeline.VoiceSession.LlmTtsLoopStep | pipeline/asr_llm_tts_stream.py:263-340 | an empty mailbox changes nothing, the reply counter and token included; otherwise one turn for the oldest transcript: a new reply number, the turn's segments queued for speech under the current generation, the previous token cancelled and a fresh live one current; the queue invariant is kept |
| Pipeline.VoiceSession.TtsStep | pipeline/asr_llm_tts_stream.py:344-368 | a stale unit is dropped; a barge-in during synthesis clears everything and leaves the current token cancelled; a failed synthesis forwards nothing; otherwise the audio is forwarded and the token is untouched; forwarded audio always belongs to the current generation; the invariant is kept |
| Pipeline.VoiceSession.PlaybackStep | pipeline/asr_llm_tts_stream.py:382-436 | a pending reset clears the buffer; an empty queue reports completed segments; a stale unit is dropped; otherwise its audio and segment are queued for playback; the accounting and the invariant are kept |
| Pipeline.TurnKeepsQueuesOk | pipeline/asr_llm_tts_stream.py:272-289 | units queued under the bumped generation keep the invariant |
| Pipeline.VoiceSession.QueuesCurrent | pipeline/asr_llm_tts_stream.py:160-163 | the speech queue has capacity 12 and holds no blank segment and no unit of a future generation; the audio queue holds no unit of a future generation |
| Pipeline.TtsQueueOkTail | pipeline/asr_llm_tts_stream.py:347 | taking the oldest unit keeps the invariant |

## Left out

- Threads, locks, `stop_event` and the `get(timeout=...)` waits. Each worker
  is modelled one iteration at a time, and a timeout is an empty queue.
  Interleavings between the threads are not modelled beyond the
  barge-in choice during synthesis.
- `Pipeline.VoiceSession.TtsStep` models a barge-in only at the synthesis
  point, the place where the second staleness check matters. A speech start
  at any other moment is a separate call to `OnSpeechStart` between steps.
- `Queues.BoundedQueue.Put`: the blocking `audio_q.put` waits for room. The
  wait is not modelled, so neither is the capacity of `audio_q`.
- `sd.stop()`, the `sd.OutputStream` lifecycle, sample-rate switching and
  the audio device. Samples arrive already decoded, as mono sample sequences.
  WAV decoding (`sf.read`) and the stereo downmix are external library
  code.
- `tts_ms` and every `time.perf_counter` measurement. `max_wait_s` is one
  boolean per chunk, because the real value depends on the clock.
- All printing and logging.
- The utterance-duration filters before transcription (`min_sec`, the 1 s
  and 0.25 s thresholds). The recorder and its `listen` are external.
- The ASR, LLM SDK, tokenizer, model and TTS engines. Their results are
  parameters. `json.dumps` is a parameter function. The configured class
  call of `build_config` is an oracle that may raise a `TypeError`.
- `Qwen`: the worker thread, the lock and the `StoppingCriteria`. The thread
  is summarised by its outcome.
- `Gemini`: the SDK client and `GenerateContentConfig`.
- `load_wav_upload` after the emptiness check (decoding, downmix, shape
  check): external library code.
- The wiring in `main()` of `asr_llm_stream.py` that does not run as
  written: `LatestQueue[str]()` at line 94 and `InterruptController(CancelToken)`
  at line 104. Both are modelled as intended.
- `VadSegmenter`: `trigger_ratio` is a real number rather than a float.
  `webrtcvad` is a boolean per frame. The float-to-int16 conversion is left
  out, since frames are already integer samples.
- The hook's exception swallowing in `VADSegmenter.segment` is not modelled:
  the hook is counted, not executed. Exceptions raised inside
  `on_speech_start` are likewise not modelled.
- `Pipeline.StreamToTts` pushes a delta's segments after the whole delta is
  scanned, while the source pushes each segment while scanning. The
  resulting queue is the same, since nothing else runs in between.
- `Text.Lower` covers ASCII only. That is exact for the media-type set and
  the role names it is applied to.
- Qwen.ResolveDtype: the `ValueError` message embeds the dtype lower-cased
  by the ASCII-only `Text.Lower`, so for a name with non-ASCII letters it
  differs from Python's `dtype.lower()`; which names are accepted is exact,
  since no non-ASCII letter lower-cases to a letter of the aliases.
- Gemini's fallback prompt mode (`structured=False`) shares its stream
  ending with the structured mode. It is modelled by the same `StreamSpec`,
  and its prompt by `Gemini.MessagesToPrompt`.
- Tool configuration (`cfg.tools`), temperature and the other generation
  parameters only pass through to the engines.

## Findings

| source | as written | input that shows it | evidently intended | confidence | as-written member | corrected member |
|---|---|---|---|---|---|---|
| src/llm/Gemini/model.py:93-95 | the final chunk is yielded from `finally` whenever the token is not cancelled, so it is also yielded while an SDK exception is propagating; consumers stop at that final chunk and never see the exception | the SDK yields `"hi"` and then raises: `stream` yields `"hi"` and a final chunk, and `generate` returns `"hi"` as a successful reply | yield the final chunk only when the SDK stream completes normally, so that the error reaches the caller | not executed | Gemini.StreamHidesSdkError | Gemini.StreamFixedReportsSdkError |
