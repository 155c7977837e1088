/** `VADSegmenter` of src/recorder/vad_segmenter.py: the constructor's
    parameter checks and derived frame counts, and the `segment` state
    machine that cuts one utterance out of a stream of fixed-size frames.
    The WebRTC voice detector is an oracle: `speech[i]` is its verdict on
    frame `i`. Samples are the int16 values after conversion. */
module VadSegmenter {
  import opened Errors
  import opened Queues
  import Text

  /** One frame of int16 samples; its byte length is twice its size. */
  type Frame = seq<int>

  /** `SegmenterConfig`; `hasSpeechStart` says whether `on_speech_start`
      is set. */
  datatype SegmenterConfig = SegmenterConfig(
    aggressiveness: int,
    paddingMs: int,
    silenceMs: int,
    maxUtteranceMs: int,
    triggerRatio: real,
    hasSpeechStart: bool)

  /** A constructed segmenter with its derived counts. */
  datatype Vad = Vad(
    cfg: SegmenterConfig,
    sampleRate: int,
    frameMs: int,
    frameSamples: int,
    frameBytes: int,
    paddingFrames: int,
    silenceFramesToEnd: int,
    maxFrames: int)

  /** `int(a / b)` for a positive `b`: true division truncated toward
      zero (Dafny's own `/` rounds down for a negative `a`). */
  function TruncDiv(a: int, b: int): int
    requires b > 0
  {
    if a >= 0 then a / b else -((-a) / b)
  }

  /** For a non-negative `a` the truncated quotient is the floor: the
      largest multiple of `b` not above `a`. */
  lemma TruncDivNonNegative(a: int, b: int)
    requires b > 0 && a >= 0
    ensures var r := TruncDiv(a, b); 0 <= r && a - b < r * b <= a
  {
    var q := a / b;
    assert a == q * b + a % b;
  }

  /** For a negative `a` it is the ceiling: the smallest multiple of `b`
      not below `a`. */
  lemma TruncDivNegative(a: int, b: int)
    requires b > 0 && a < 0
    ensures var r := TruncDiv(a, b); r <= 0 && a <= r * b < a + b
  {
    var q := (-a) / b;
    assert -a == q * b + (-a) % b;
    assert (-q) * b == -(q * b);
  }

  /** Python's `int(-7 / 2)` is -3 where floor division gives -4. */
  lemma TruncDivExample()
    ensures TruncDiv(-7, 2) == -3 && -7 / 2 == -4
  {
  }

  predicate ValidFrameMs(frameMs: int) {
    frameMs == 10 || frameMs == 20 || frameMs == 30
  }

  predicate ValidSampleRate(sampleRate: int) {
    sampleRate == 8000 || sampleRate == 16000 || sampleRate == 32000 || sampleRate == 48000
  }

  /** `VADSegmenter.__init__`: three checks in order, each raising
      `ValueError`, then the derived counts. */
  function NewVad(cfg: SegmenterConfig, sampleRate: int, frameMs: int): (r: Result<Vad>)
    ensures r.Ok? <==> ValidFrameMs(frameMs) && ValidSampleRate(sampleRate) && 0 <= cfg.aggressiveness <= 3
    ensures !ValidFrameMs(frameMs) ==> r == Err(Value("frame_ms must be 10/20/30 for WebRTC VAD"))
    ensures ValidFrameMs(frameMs) && !ValidSampleRate(sampleRate) ==>
      r == Err(Value("sample_rate must be 8000/16000/32000/48000 for WebRTC VAD"))
    ensures ValidFrameMs(frameMs) && ValidSampleRate(sampleRate) && !(0 <= cfg.aggressiveness <= 3) ==>
      r == Err(Value("aggressiveness must be 0..3"))
    ensures r.Ok? ==> var v := r.value;
      && v.cfg == cfg && v.sampleRate == sampleRate && v.frameMs == frameMs
      && v.frameSamples > 0 && v.frameSamples * 1000 == sampleRate * frameMs
      && v.frameBytes == 2 * v.frameSamples
      && v.paddingFrames == TruncDiv(cfg.paddingMs, frameMs)
      && v.silenceFramesToEnd == TruncDiv(cfg.silenceMs, frameMs)
      && v.maxFrames == TruncDiv(cfg.maxUtteranceMs, frameMs)
  {
    if !ValidFrameMs(frameMs) then Err(Value("frame_ms must be 10/20/30 for WebRTC VAD"))
    else if !ValidSampleRate(sampleRate) then
      Err(Value("sample_rate must be 8000/16000/32000/48000 for WebRTC VAD"))
    else if !(0 <= cfg.aggressiveness <= 3) then Err(Value("aggressiveness must be 0..3"))
    else
      var samples := (sampleRate / 1000) * frameMs;
      assert samples * 1000 == sampleRate * frameMs;
      Ok(Vad(cfg, sampleRate, frameMs, samples, samples * 2,
             TruncDiv(cfg.paddingMs, frameMs), TruncDiv(cfg.silenceMs, frameMs),
             TruncDiv(cfg.maxUtteranceMs, frameMs)))
  }

  /** With the default configuration at 16 kHz and 20 ms frames: 320
      samples (640 bytes) per frame, 15 frames of padding, 30 frames of
      silence to end, at most 750 frames. */
  lemma DefaultCounts()
    ensures var r := NewVad(SegmenterConfig(2, 300, 600, 15000, 0.6, false), 16000, 20);
      r.Ok? && r.value.frameSamples == 320 && r.value.frameBytes == 640
      && r.value.paddingFrames == 15 && r.value.silenceFramesToEnd == 30 && r.value.maxFrames == 750
  {
    var r := NewVad(SegmenterConfig(2, 300, 600, 15000, 0.6, false), 16000, 20);
    assert TruncDiv(300, 20) == 15;
    assert TruncDiv(600, 20) == 30;
    assert TruncDiv(15000, 20) == 750;
  }

  /** The local state of one `segment` call. `speechStarts` counts calls of
      `on_speech_start`; `stopped` is the `break`. */
  datatype SegState = SegState(
    ring: seq<(Frame, bool)>,
    triggered: bool,
    voiced: seq<Frame>,
    silence: nat,
    total: nat,
    speechStarts: nat,
    stopped: bool)

  const Start := SegState([], false, [], 0, 0, 0, false)

  /** `sum(1 for _, s in ring if s)` */
  function CountVoiced(ring: seq<(Frame, bool)>): (n: nat)
    ensures n <= |ring|
  {
    if ring == [] then 0 else (if ring[0].1 then 1 else 0) + CountVoiced(ring[1..])
  }

  /** Does the frame have the byte length the detector needs? */
  predicate FrameFits(v: Vad, frame: Frame) {
    2 * |frame| == v.frameBytes
  }

  /** `trigger_ratio * ring.maxlen`, the voiced count to exceed. */
  function Threshold(v: Vad): real {
    v.cfg.triggerRatio * v.paddingFrames as real
  }

  /** One iteration of the `for` loop. */
  function Step(v: Vad, s: SegState, frame: Frame, isSpeech: bool): SegState
    requires v.paddingFrames >= 0
  {
    if !FrameFits(v, frame) then s
    else
      var total := s.total + 1;
      if !s.triggered then
        var ring := Newest(s.ring + [(frame, isSpeech)], v.paddingFrames);
        if CountVoiced(ring) as real > Threshold(v) then
          SegState([], true, s.voiced + Text.Firsts(ring), 0, total,
                   s.speechStarts + (if v.cfg.hasSpeechStart then 1 else 0), false)
        else
          s.(ring := ring, total := total)
      else
        var silence := if isSpeech then 0 else s.silence + 1;
        s.(voiced := s.voiced + [frame], silence := silence, total := total,
           stopped := silence >= v.silenceFramesToEnd || total >= v.maxFrames)
  }

  /** The loop from state `s` over the remaining frames, up to the `break`. */
  function Run(v: Vad, s: SegState, frames: seq<Frame>, speech: seq<bool>): SegState
    requires v.paddingFrames >= 0 && |speech| == |frames|
    decreases |frames|
  {
    if frames == [] || s.stopped then s
    else Run(v, Step(v, s, frames[0], speech[0]), frames[1..], speech[1..])
  }

  /** `b"".join(voiced_frames)` as samples. */
  function Flatten(frames: seq<Frame>): seq<int> {
    if frames == [] then [] else frames[0] + Flatten(frames[1..])
  }

  /** `segment(frames)`: the joined samples of the collected frames, and how
      often `on_speech_start` was called. A negative padding count makes
      `deque(maxlen=...)` raise `ValueError` before any frame is read. */
  method Segment(v: Vad, frames: seq<Frame>, speech: seq<bool>) returns (r: Result<seq<int>>, speechStarts: nat)
    requires |speech| == |frames|
    ensures v.paddingFrames < 0 ==> r == Err(Value("maxlen must be non-negative")) && speechStarts == 0
    ensures v.paddingFrames >= 0 ==>
      var s := Run(v, Start, frames, speech);
      r == Ok(Flatten(s.voiced)) && speechStarts == s.speechStarts
  {
    if v.paddingFrames < 0 {
      return Err(Value("maxlen must be non-negative")), 0;
    }
    var ring: seq<(Frame, bool)> := [];
    var triggered := false;
    var voiced: seq<Frame> := [];
    var silence: nat := 0;
    var total: nat := 0;
    speechStarts := 0;
    var i := 0;
    while i < |frames|
      invariant 0 <= i <= |frames|
      invariant Run(v, SegState(ring, triggered, voiced, silence, total, speechStarts, false), frames[i..], speech[i..])
             == Run(v, Start, frames, speech)
      decreases |frames| - i
    {
      ghost var before := SegState(ring, triggered, voiced, silence, total, speechStarts, false);
      RunUnfold(v, before, frames, speech, i);
      var stop;
      ring, triggered, voiced, silence, total, speechStarts, stop :=
        SegmentFrame(v, ring, triggered, voiced, silence, total, speechStarts, frames[i], speech[i]);
      i := i + 1;
      if stop {
        RunStopped(v, SegState(ring, triggered, voiced, silence, total, speechStarts, stop), frames[i..], speech[i..]);
        break;
      }
    }
    r := Ok(Flatten(voiced));
  }

  /** The body of the `for` loop for one frame: a frame of the wrong size
      is skipped (`continue`); `stop` is the `break`. */
  method SegmentFrame(v: Vad, ring: seq<(Frame, bool)>, triggered: bool, voiced: seq<Frame>,
                      silence: nat, total: nat, speechStarts: nat, frame: Frame, isSpeech: bool)
    returns (ring': seq<(Frame, bool)>, triggered': bool, voiced': seq<Frame>,
             silence': nat, total': nat, speechStarts': nat, stop: bool)
    requires v.paddingFrames >= 0
    ensures SegState(ring', triggered', voiced', silence', total', speechStarts', stop)
         == Step(v, SegState(ring, triggered, voiced, silence, total, speechStarts, false), frame, isSpeech)
  {
    ring', triggered', voiced', silence', total', speechStarts', stop :=
      ring, triggered, voiced, silence, total, speechStarts, false;
    if 2 * |frame| != v.frameBytes {
      return;
    }
    total' := total + 1;
    if !triggered {
      ring' := Newest(ring + [(frame, isSpeech)], v.paddingFrames);
      var numVoiced := CountVoiced(ring');
      if numVoiced as real > Threshold(v) {
        triggered' := true;
        if v.cfg.hasSpeechStart {
          speechStarts' := speechStarts + 1;
        }
        voiced' := voiced + Text.Firsts(ring');
        ring' := [];
        silence' := 0;
      }
    } else {
      voiced' := voiced + [frame];
      if isSpeech {
        silence' := 0;
      } else {
        silence' := silence + 1;
      }
      stop := silence' >= v.silenceFramesToEnd || total' >= v.maxFrames;
    }
  }

  /** After the `break` nothing more is read. */
  lemma RunStopped(v: Vad, s: SegState, frames: seq<Frame>, speech: seq<bool>)
    requires v.paddingFrames >= 0 && |speech| == |frames| && s.stopped
    ensures Run(v, s, frames, speech) == s
  {
  }

  /** One turn of `Run` from position `i`. */
  lemma RunUnfold(v: Vad, s: SegState, frames: seq<Frame>, speech: seq<bool>, i: nat)
    requires v.paddingFrames >= 0 && |speech| == |frames| && i < |frames| && !s.stopped
    ensures Run(v, s, frames[i..], speech[i..])
         == Run(v, Step(v, s, frames[i], speech[i]), frames[i + 1..], speech[i + 1..])
  {
    assert frames[i..][0] == frames[i] && frames[i..][1..] == frames[i + 1..];
    assert speech[i..][0] == speech[i] && speech[i..][1..] == speech[i + 1..];
  }

  /** What every state reached from `Start` satisfies: the ring never holds
      more than the padding count and is empty once triggered, only
      fitting frames are kept, nothing is collected and the callback has
      not run before the trigger, the callback runs at most once, and a
      `break` happens only after the trigger, on enough silence or on the
      frame cap. */
  ghost predicate Inv(v: Vad, s: SegState)
    requires v.paddingFrames >= 0
  {
    && |s.ring| <= v.paddingFrames
    && (forall i :: 0 <= i < |s.ring| ==> FrameFits(v, s.ring[i].0))
    && (forall i :: 0 <= i < |s.voiced| ==> FrameFits(v, s.voiced[i]))
    && (!s.triggered ==> s.voiced == [] && s.silence == 0 && s.speechStarts == 0 && !s.stopped)
    && (s.triggered ==> s.ring == [] && s.speechStarts == (if v.cfg.hasSpeechStart then 1 else 0))
    && (s.stopped ==> s.triggered && (s.silence >= v.silenceFramesToEnd || s.total >= v.maxFrames))
  }

  lemma StepPreservesInv(v: Vad, s: SegState, frame: Frame, isSpeech: bool)
    requires v.paddingFrames >= 0 && Inv(v, s) && !s.stopped
    ensures Inv(v, Step(v, s, frame, isSpeech))
  {
    if FrameFits(v, frame) {
      if s.triggered {
        CollectKeepsInv(v, s, frame, isSpeech);
      } else {
        RingFits(v, s.ring, frame, isSpeech);
        var ring := Newest(s.ring + [(frame, isSpeech)], v.paddingFrames);
        if CountVoiced(ring) as real > Threshold(v) {
          TriggerKeepsInv(v, s, ring);
        } else {
          assert Step(v, s, frame, isSpeech) == s.(ring := ring, total := s.total + 1);
        }
      }
    }
  }

  /** The trigger step: the ring becomes the collected frames. */
  lemma TriggerKeepsInv(v: Vad, s: SegState, ring: seq<(Frame, bool)>)
    requires v.paddingFrames >= 0 && Inv(v, s) && !s.triggered
    requires forall i :: 0 <= i < |ring| ==> FrameFits(v, ring[i].0)
    ensures Inv(v, SegState([], true, s.voiced + Text.Firsts(ring), 0, s.total + 1,
                            s.speechStarts + (if v.cfg.hasSpeechStart then 1 else 0), false))
  {
    assert s.voiced + Text.Firsts(ring) == Text.Firsts(ring);
  }

  /** A step after the trigger appends one fitting frame. */
  lemma CollectKeepsInv(v: Vad, s: SegState, frame: Frame, isSpeech: bool)
    requires v.paddingFrames >= 0 && Inv(v, s) && !s.stopped && s.triggered && FrameFits(v, frame)
    ensures Inv(v, Step(v, s, frame, isSpeech))
  {
    var t := Step(v, s, frame, isSpeech);
    assert t.voiced == s.voiced + [frame];
    assert forall i :: 0 <= i < |t.voiced| ==> FrameFits(v, t.voiced[i]) by {
      forall i | 0 <= i < |t.voiced|
        ensures FrameFits(v, t.voiced[i])
      {
        if i < |s.voiced| { assert t.voiced[i] == s.voiced[i]; }
      }
    }
  }

  /** The ring after an append holds only fitting frames if it did before. */
  lemma RingFits(v: Vad, ring: seq<(Frame, bool)>, frame: Frame, isSpeech: bool)
    requires v.paddingFrames >= 0 && FrameFits(v, frame)
    requires forall i :: 0 <= i < |ring| ==> FrameFits(v, ring[i].0)
    ensures var r := Newest(ring + [(frame, isSpeech)], v.paddingFrames);
      forall i :: 0 <= i < |r| ==> FrameFits(v, r[i].0)
  {
    var x := ring + [(frame, isSpeech)];
    var r := Newest(x, v.paddingFrames);
    forall i | 0 <= i < |r|
      ensures FrameFits(v, r[i].0)
    {
      assert r[i] == x[|x| - |r| + i];
    }
  }

  lemma {:induction false} RunPreservesInv(v: Vad, s: SegState, frames: seq<Frame>, speech: seq<bool>)
    requires v.paddingFrames >= 0 && |speech| == |frames| && Inv(v, s)
    ensures Inv(v, Run(v, s, frames, speech))
    decreases |frames|
  {
    if frames != [] && !s.stopped {
      StepPreservesInv(v, s, frames[0], speech[0]);
      RunPreservesInv(v, Step(v, s, frames[0], speech[0]), frames[1..], speech[1..]);
    }
  }

  /** The joined samples are exactly the frames' samples in order. */
  lemma {:induction false} FlattenLength(v: Vad, frames: seq<Frame>)
    requires forall i :: 0 <= i < |frames| ==> FrameFits(v, frames[i])
    ensures 2 * |Flatten(frames)| == |frames| * v.frameBytes
  {
    if frames != [] {
      FlattenLength(v, frames[1..]);
    }
  }

  /** What `segment` returns: its sample count is the number of collected
      frames times the frame size; it is empty when speech never
      triggered; `on_speech_start` runs at most once, and exactly once
      when speech triggered and the callback is set; a `break` means
      silence or the frame cap was reached. */
  lemma SegmentOutcome(v: Vad, frames: seq<Frame>, speech: seq<bool>)
    requires v.paddingFrames >= 0 && |speech| == |frames|
    ensures var s := Run(v, Start, frames, speech);
      && 2 * |Flatten(s.voiced)| == |s.voiced| * v.frameBytes
      && (!s.triggered ==> Flatten(s.voiced) == [])
      && s.speechStarts == (if s.triggered && v.cfg.hasSpeechStart then 1 else 0)
      && (s.stopped ==> s.triggered && (s.silence >= v.silenceFramesToEnd || s.total >= v.maxFrames))
  {
    RunPreservesInv(v, Start, frames, speech);
    var s := Run(v, Start, frames, speech);
    FlattenLength(v, s.voiced);
  }

  /** A frame of the wrong size is skipped: it changes nothing, not even
      the frame count that the cap is measured against. */
  lemma SkipsMisfit(v: Vad, s: SegState, frame: Frame, isSpeech: bool)
    requires v.paddingFrames >= 0 && !FrameFits(v, frame)
    ensures Step(v, s, frame, isSpeech) == s
  {
  }

  /** Once triggered, the segmenter stays triggered. */
  lemma {:induction false} RunKeepsTrigger(v: Vad, s: SegState, frames: seq<Frame>, speech: seq<bool>)
    requires v.paddingFrames >= 0 && |speech| == |frames| && s.triggered
    ensures Run(v, s, frames, speech).triggered
    decreases |frames|
  {
    if frames != [] && !s.stopped {
      RunKeepsTrigger(v, Step(v, s, frames[0], speech[0]), frames[1..], speech[1..]);
    }
  }

  /** The fitting frames with their detector verdicts, in order. */
  function Fitting(v: Vad, frames: seq<Frame>, speech: seq<bool>): seq<(Frame, bool)>
    requires |speech| == |frames|
  {
    if frames == [] then []
    else (if FrameFits(v, frames[0]) then [(frames[0], speech[0])] else [])
         + Fitting(v, frames[1..], speech[1..])
  }

  /** Keeping the newest `n` of a long enough suffix is keeping the newest
      `n` of the whole. */
  lemma NewestOfSuffix<T>(x: seq<T>, k: nat, n: nat)
    requires k <= |x| && |x| - k >= n
    ensures Newest(x[k..], n) == Newest(x, n)
  {
    assert x[k..][|x| - k - n..] == x[|x| - n..];
  }

  lemma NewestTwice<T>(a: seq<T>, b: seq<T>, n: nat)
    ensures Newest(Newest(a, n) + b, n) == Newest(a + b, n)
  {
    if |a| > n {
      var k := |a| - n;
      assert Newest(a, n) + b == (a + b)[k..];
      NewestOfSuffix(a + b, k, n);
    }
  }

  /** Until speech triggers, the ring holds the newest `padding_frames`
      fitting frames seen so far, and only fitting frames are counted. */
  lemma {:induction false} RingBeforeTrigger(v: Vad, s: SegState, frames: seq<Frame>, speech: seq<bool>)
    requires v.paddingFrames >= 0 && |speech| == |frames| && !s.triggered && !s.stopped
    requires |s.ring| <= v.paddingFrames
    ensures var t := Run(v, s, frames, speech);
      !t.triggered ==>
        && t.ring == Newest(s.ring + Fitting(v, frames, speech), v.paddingFrames)
        && t.total == s.total + |Fitting(v, frames, speech)|
        && t.voiced == s.voiced
    decreases |frames|
  {
    if frames != [] {
      var s' := Step(v, s, frames[0], speech[0]);
      var rest := Fitting(v, frames[1..], speech[1..]);
      if s'.triggered {
        RunKeepsTrigger(v, s', frames[1..], speech[1..]);
      } else {
        RingBeforeTrigger(v, s', frames[1..], speech[1..]);
        if FrameFits(v, frames[0]) {
          var p := (frames[0], speech[0]);
          assert Fitting(v, frames, speech) == [p] + rest;
          NewestTwice(s.ring + [p], rest, v.paddingFrames);
          Text.AppendAssoc(s.ring, [p], rest);
        } else {
          assert Fitting(v, frames, speech) == rest;
        }
      }
    } else {
      assert s.ring + [] == s.ring;
    }
  }

  /** With a padding window of zero frames the voiced count can never
      exceed `trigger_ratio * 0`, so `segment` never triggers and returns
      no audio, whatever the detector says. */
  lemma {:induction false} NoPaddingNeverTriggers(v: Vad, s: SegState, frames: seq<Frame>, speech: seq<bool>)
    requires v.paddingFrames == 0 && |speech| == |frames| && !s.triggered && !s.stopped
    ensures !Run(v, s, frames, speech).triggered
    ensures Run(v, s, frames, speech).voiced == s.voiced
    decreases |frames|
  {
    if frames != [] {
      RunNoPaddingStep(v, s, frames[0], speech[0]);
      NoPaddingNeverTriggers(v, Step(v, s, frames[0], speech[0]), frames[1..], speech[1..]);
    }
  }

  lemma RunNoPaddingStep(v: Vad, s: SegState, frame: Frame, isSpeech: bool)
    requires v.paddingFrames == 0 && !s.triggered && !s.stopped
    ensures var t := Step(v, s, frame, isSpeech); !t.triggered && !t.stopped && t.voiced == s.voiced
  {
  }
}
