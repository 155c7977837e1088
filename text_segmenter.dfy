/** The incremental text segmenter written inline in `llm_tts_loop`
    (pipeline/asr_llm_tts_stream.py): it carves the token stream of one
    reply into chunks for speech synthesis. */
module TextSegmenter {
  import opened Errors
  import opened Text

  /** `split_chars`, `min_chars`, `max_chars` */
  datatype SegmenterConfig = SegmenterConfig(splitChars: set<char>, minChars: nat, maxChars: nat)

  /** The constants of `main()`: `set("，,。！？；.!?;")`, 10 and 1000. */
  const DefaultConfig := SegmenterConfig(
    {'，', ',', '。', '！', '？', '；', '.', '!', '?', ';'}, 10, 1000)

  /** Index `j` of `buf` is where the scan may cut: a boundary character
      that makes the chunk `buf[..j+1]` at least `minChars` long. */
  predicate IsSplitPoint(cfg: SegmenterConfig, buf: string, j: int) {
    0 <= j < |buf| && buf[j] in cfg.splitChars && j + 1 >= cfg.minChars
  }

  predicate NoSplitPoint(cfg: SegmenterConfig, buf: string) {
    forall j :: 0 <= j < |buf| ==> !IsSplitPoint(cfg, buf, j)
  }

  function FirstSplitFrom(cfg: SegmenterConfig, buf: string, i: nat): (r: Option<nat>)
    requires i <= |buf|
    ensures r.Some? ==> i <= r.value < |buf|
    decreases |buf| - i
  {
    if i == |buf| then None
    else if IsSplitPoint(cfg, buf, i) then Some(i)
    else FirstSplitFrom(cfg, buf, i + 1)
  }

  /** The earliest split point of the buffer, if any. */
  function FirstSplit(cfg: SegmenterConfig, buf: string): (r: Option<nat>)
    ensures r.Some? ==> r.value < |buf|
  {
    FirstSplitFrom(cfg, buf, 0)
  }

  lemma {:induction false} FirstSplitFromSpec(cfg: SegmenterConfig, buf: string, i: nat)
    requires i <= |buf|
    ensures var r := FirstSplitFrom(cfg, buf, i);
      && (r.Some? ==> IsSplitPoint(cfg, buf, r.value))
      && (r.Some? ==> forall j :: i <= j < r.value ==> !IsSplitPoint(cfg, buf, j))
      && (r.None? ==> forall j :: i <= j < |buf| ==> !IsSplitPoint(cfg, buf, j))
    decreases |buf| - i
  {
    if i < |buf| && !IsSplitPoint(cfg, buf, i) {
      FirstSplitFromSpec(cfg, buf, i + 1);
    }
  }

  /** `FirstSplit` finds the earliest split point, and finds none exactly
      when there is none. */
  lemma FirstSplitSpec(cfg: SegmenterConfig, buf: string)
    ensures var r := FirstSplit(cfg, buf);
      && (r.Some? ==> IsSplitPoint(cfg, buf, r.value))
      && (r.Some? ==> forall j :: 0 <= j < r.value ==> !IsSplitPoint(cfg, buf, j))
      && (r.None? <==> NoSplitPoint(cfg, buf))
  {
    FirstSplitFromSpec(cfg, buf, 0);
  }

  /** The inner `while True` scan: cut at the earliest split point until
      none is left. */
  function SplitAll(cfg: SegmenterConfig, buf: string): (r: (seq<string>, string))
    decreases |buf|
  {
    match FirstSplit(cfg, buf)
    case None => ([], buf)
    case Some(k) =>
      var rest := SplitAll(cfg, buf[k + 1..]);
      ([buf[..k + 1]] + rest.0, rest.1)
  }

  /** The hard cut: a buffer still holding at least `maxChars` characters
      after the scan gives up its first `maxChars` characters, once. */
  function HardCut(cfg: SegmenterConfig, r: string): (seq<string>, string) {
    if |r| >= cfg.maxChars then ([r[..cfg.maxChars]], r[cfg.maxChars..]) else ([], r)
  }

  /** The time-based flush of a non-empty buffer. */
  function TimedFlush(r: string, waitExpired: bool): (seq<string>, string) {
    if r != "" && waitExpired then ([r], "") else ([], r)
  }

  /** What one delta does to the buffer: append, cut at every boundary,
      one hard cut, then the time-based flush. `waitExpired` is the outcome
      of the clock comparison `perf_counter() - last_emit >= max_wait_s` at
      that point. An empty delta is skipped by `if ch.text_delta:`. */
  function Step(cfg: SegmenterConfig, buf: string, delta: string, waitExpired: bool): (seq<string>, string) {
    if delta == "" then ([], buf)
    else
      var s := SplitAll(cfg, buf + delta);
      var h := HardCut(cfg, s.1);
      var t := TimedFlush(h.1, waitExpired);
      (s.0 + h.0 + t.0, t.1)
  }

  predicate ChunkEndsAtBoundary(cfg: SegmenterConfig, c: string) {
    |c| >= cfg.minChars && |c| >= 1 && c[|c| - 1] in cfg.splitChars
  }

  /** The scan loses and duplicates nothing: its chunks followed by what is
      left are exactly the buffer. */
  lemma {:induction false} SplitAllConserves(cfg: SegmenterConfig, buf: string)
    ensures Concat(SplitAll(cfg, buf).0) + SplitAll(cfg, buf).1 == buf
    decreases |buf|
  {
    match FirstSplit(cfg, buf)
    case None =>
    case Some(k) =>
      SplitAllAtFirst(cfg, buf, k);
      var head, tail := buf[..k + 1], buf[k + 1..];
      SplitAllConserves(cfg, tail);
      var rest := SplitAll(cfg, tail);
      assert Concat([head] + rest.0) == head + Concat(rest.0) by {
        assert ([head] + rest.0)[1..] == rest.0;
      }
      AppendAssoc(head, Concat(rest.0), rest.1);
      assert buf == head + tail;
  }

  /** Every chunk of the scan ends with a boundary character and is at
      least `minChars` long; what is left has no split point. */
  lemma {:induction false} SplitAllBoundaries(cfg: SegmenterConfig, buf: string)
    ensures forall i :: 0 <= i < |SplitAll(cfg, buf).0| ==> ChunkEndsAtBoundary(cfg, SplitAll(cfg, buf).0[i])
    ensures NoSplitPoint(cfg, SplitAll(cfg, buf).1)
    decreases |buf|
  {
    match FirstSplit(cfg, buf)
    case None =>
      FirstSplitSpec(cfg, buf);
    case Some(k) =>
      SplitAllBoundaries(cfg, buf[k + 1..]);
      var rest := SplitAll(cfg, buf[k + 1..]);
      assert SplitAll(cfg, buf) == ([buf[..k + 1]] + rest.0, rest.1);
      FirstSplitSpec(cfg, buf);
      assert ChunkEndsAtBoundary(cfg, buf[..k + 1]);
  }

  /** A boundary found inside `x` is still the first one in `x + y`. */
  lemma FirstSplitAppend(cfg: SegmenterConfig, x: string, y: string)
    requires FirstSplit(cfg, x).Some?
    ensures FirstSplit(cfg, x + y) == FirstSplit(cfg, x)
  {
    var k := FirstSplit(cfg, x).value;
    FirstSplitSpec(cfg, x);
    FirstSplitSpec(cfg, x + y);
    assert IsSplitPoint(cfg, x + y, k);
    forall j | 0 <= j < k ensures !IsSplitPoint(cfg, x + y, j) {
      assert (x + y)[j] == x[j];
      assert !IsSplitPoint(cfg, x, j);
    }
  }

  /** One round of the scan, unfolded. */
  lemma SplitAllAtFirst(cfg: SegmenterConfig, x: string, k: nat)
    requires FirstSplit(cfg, x) == Some(k)
    ensures k < |x|
    ensures SplitAll(cfg, x).0 == [x[..k + 1]] + SplitAll(cfg, x[k + 1..]).0
    ensures SplitAll(cfg, x).1 == SplitAll(cfg, x[k + 1..]).1
  {
  }

  /** Cutting is insensitive to how the text arrives: scanning `x + y`
      gives the chunks of `x` followed by the chunks of what `x` left over
      joined with `y`. */
  lemma {:induction false} SplitAllAppend(cfg: SegmenterConfig, x: string, y: string)
    ensures SplitAll(cfg, x + y).0 == SplitAll(cfg, x).0 + SplitAll(cfg, SplitAll(cfg, x).1 + y).0
    ensures SplitAll(cfg, x + y).1 == SplitAll(cfg, SplitAll(cfg, x).1 + y).1
    decreases |x|
  {
    var f := FirstSplit(cfg, x);
    if f.None? {
      assert SplitAll(cfg, x) == ([], x);
    } else {
      var k := f.value;
      FirstSplitAppend(cfg, x, y);
      var x' := x[k + 1..];
      var xy := x + y;
      SplitAllAtFirst(cfg, x, k);
      SplitAllAtFirst(cfg, xy, k);
      assert xy[k + 1..] == x' + y;
      assert xy[..k + 1] == x[..k + 1];
      SplitAllAppend(cfg, x', y);
      var h := [x[..k + 1]];
      var a := SplitAll(cfg, x').0;
      var b := SplitAll(cfg, SplitAll(cfg, x').1 + y).0;
      assert SplitAll(cfg, x).1 == SplitAll(cfg, x').1;
      assert SplitAll(cfg, xy).0 == h + (a + b);
      AppendAssoc(h, a, b);
    }
  }

  lemma HardCutSpec(cfg: SegmenterConfig, r: string)
    ensures Concat(HardCut(cfg, r).0) + HardCut(cfg, r).1 == r
    ensures NoSplitPoint(cfg, r) ==> NoSplitPoint(cfg, HardCut(cfg, r).1)
  {
    if |r| >= cfg.maxChars {
      var r2 := r[cfg.maxChars..];
      assert Concat([r[..cfg.maxChars]]) == r[..cfg.maxChars] + Concat([]);
      assert r == r[..cfg.maxChars] + r2;
      if NoSplitPoint(cfg, r) {
        forall j | 0 <= j < |r2| ensures !IsSplitPoint(cfg, r2, j) {
          assert r2[j] == r[j + cfg.maxChars];
          assert !IsSplitPoint(cfg, r, j + cfg.maxChars);
        }
      }
    }
  }

  /** One delta loses and duplicates nothing, and leaves a buffer in which
      the scan finds no split point. */
  lemma StepConserves(cfg: SegmenterConfig, buf: string, delta: string, waitExpired: bool)
    ensures Concat(Step(cfg, buf, delta, waitExpired).0) + Step(cfg, buf, delta, waitExpired).1 == buf + delta
    ensures NoSplitPoint(cfg, buf) ==> NoSplitPoint(cfg, Step(cfg, buf, delta, waitExpired).1)
  {
    if delta != "" {
      var s := SplitAll(cfg, buf + delta);
      var h := HardCut(cfg, s.1);
      var t := TimedFlush(h.1, waitExpired);
      SplitAllConserves(cfg, buf + delta);
      SplitAllBoundaries(cfg, buf + delta);
      HardCutSpec(cfg, s.1);
      assert Concat(t.0) + t.1 == h.1 by {
        if h.1 != "" && waitExpired {
          assert Concat([h.1]) == h.1 + Concat([]);
        }
      }
      ConcatAppend(s.0, h.0);
      ConcatAppend(s.0 + h.0, t.0);
      var a, b, c := Concat(s.0), Concat(h.0), Concat(t.0);
      AppendAssoc(a + b, c, t.1);
      AppendAssoc(a, b, h.1);
    } else {
      assert buf + delta == buf;
    }
  }

  /** The chunks of one step: the boundary cuts come first; a hard cut of
      exactly `maxChars` characters follows exactly when the scan left at
      least `maxChars` characters; at most two chunks are added beyond the
      boundary cuts, and after a time-based flush the buffer is empty. */
  lemma StepChunks(cfg: SegmenterConfig, buf: string, delta: string, waitExpired: bool)
    requires delta != ""
    ensures var s := SplitAll(cfg, buf + delta);
      var out := Step(cfg, buf, delta, waitExpired);
      && |s.0| <= |out.0| <= |s.0| + 2
      && out.0[..|s.0|] == s.0
      && (|s.1| >= cfg.maxChars ==> |out.0| > |s.0| && out.0[|s.0|] == s.1[..cfg.maxChars])
      && (|s.1| < cfg.maxChars ==> |out.0| <= |s.0| + 1 && (|out.0| == |s.0| + 1 ==> out.0[|s.0|] == s.1))
      && (waitExpired ==> out.1 == "")
  {
    var s := SplitAll(cfg, buf + delta);
    var h := HardCut(cfg, s.1);
    var t := TimedFlush(h.1, waitExpired);
    assert Step(cfg, buf, delta, waitExpired) == (s.0 + h.0 + t.0, t.1);
    assert (s.0 + h.0 + t.0)[..|s.0|] == s.0;
    if |s.1| < cfg.maxChars {
      assert h == ([], s.1);
      assert s.0 + h.0 + t.0 == s.0 + t.0;
    } else {
      assert (s.0 + h.0 + t.0)[|s.0|] == h.0[0];
    }
  }

  /** A text of exactly `maxChars` characters without any boundary,
      arriving on an empty buffer, is emitted as one forced chunk. */
  lemma StepHardCutExact(cfg: SegmenterConfig, text: string, waitExpired: bool)
    requires |text| == cfg.maxChars > 0
    requires forall j :: 0 <= j < |text| ==> text[j] !in cfg.splitChars
    ensures Step(cfg, "", text, waitExpired) == ([text], "")
  {
    assert "" + text == text;
    assert NoSplitPoint(cfg, text);
    FirstSplitSpec(cfg, text);
    assert SplitAll(cfg, text) == ([], text);
    assert text[..cfg.maxChars] == text;
    assert text[cfg.maxChars..] == "";
    assert HardCut(cfg, text) == ([text], "");
    assert TimedFlush("", waitExpired) == ([], "");
    assert [] + [text] + [] == [text];
  }

  /** Feeding a sequence of deltas, one step each. */
  function FeedAll(cfg: SegmenterConfig, buf: string, deltas: seq<string>, expired: seq<bool>): (seq<string>, string)
    requires |expired| == |deltas|
    decreases |deltas|
  {
    if deltas == [] then ([], buf)
    else
      var s := Step(cfg, buf, deltas[0], expired[0]);
      var rest := FeedAll(cfg, s.1, deltas[1..], expired[1..]);
      (s.0 + rest.0, rest.1)
  }

  /** Feeding one more delta continues from where the earlier ones left
      the buffer. */
  lemma {:induction false} FeedAllSnoc(cfg: SegmenterConfig, buf: string, ds: seq<string>, es: seq<bool>, d: string, e: bool)
    requires |es| == |ds|
    ensures var f := FeedAll(cfg, buf, ds, es);
      var s := Step(cfg, f.1, d, e);
      FeedAll(cfg, buf, ds + [d], es + [e]) == (f.0 + s.0, s.1)
    decreases |ds|
  {
    if ds == [] {
      var s := Step(cfg, buf, d, e);
      assert ds + [d] == [d] && es + [e] == [e];
      assert FeedAll(cfg, s.1, [d][1..], [e][1..]) == ([], s.1);
      assert s.0 + [] == s.0 && [] + s.0 == s.0;
    } else {
      var s0 := Step(cfg, buf, ds[0], es[0]);
      FeedAllSnoc(cfg, s0.1, ds[1..], es[1..], d, e);
      assert (ds + [d])[1..] == ds[1..] + [d];
      assert (es + [e])[1..] == es[1..] + [e];
      var rest := FeedAll(cfg, s0.1, ds[1..], es[1..]);
      var s := Step(cfg, rest.1, d, e);
      AppendAssoc(s0.0, rest.0, s.0);
    }
  }

  lemma ConcatRegroup(cs1: seq<string>, r1: string, cs2: seq<string>, r2: string, buf: string, d: string, tail: string)
    requires Concat(cs1) + r1 == buf + d
    requires Concat(cs2) + r2 == r1 + tail
    ensures Concat(cs1 + cs2) + r2 == buf + (d + tail)
  {
    ConcatAppend(cs1, cs2);
    calc {
      Concat(cs1 + cs2) + r2;
      Concat(cs1) + (Concat(cs2) + r2);
      (Concat(cs1) + r1) + tail;
    }
  }

  /** Over a whole reply, the emitted chunks followed by the buffer are
      exactly the concatenation of all deltas received. */
  lemma {:induction false} FeedAllConserves(cfg: SegmenterConfig, buf: string, deltas: seq<string>, expired: seq<bool>)
    requires |expired| == |deltas|
    ensures Concat(FeedAll(cfg, buf, deltas, expired).0) + FeedAll(cfg, buf, deltas, expired).1 == buf + Concat(deltas)
    decreases |deltas|
  {
    if deltas == [] {
      assert buf + Concat(deltas) == buf;
    } else {
      var s := Step(cfg, buf, deltas[0], expired[0]);
      StepConserves(cfg, buf, deltas[0], expired[0]);
      FeedAllConserves(cfg, s.1, deltas[1..], expired[1..]);
      var rest := FeedAll(cfg, s.1, deltas[1..], expired[1..]);
      assert FeedAll(cfg, buf, deltas, expired) == (s.0 + rest.0, rest.1);
      ConcatRegroup(s.0, s.1, rest.0, rest.1, buf, deltas[0], Concat(deltas[1..]));
    }
  }

  /** A delta that cannot trigger a hard cut, with the clock not expired,
      is just the scan of the joined buffer. */
  lemma StepScanOnly(cfg: SegmenterConfig, buf: string, d: string)
    requires |buf| + |d| < cfg.maxChars
    requires NoSplitPoint(cfg, buf)
    ensures Step(cfg, buf, d, false) == SplitAll(cfg, buf + d)
    ensures NoSplitPoint(cfg, SplitAll(cfg, buf + d).1)
    ensures |SplitAll(cfg, buf + d).1| <= |buf| + |d|
  {
    var s := SplitAll(cfg, buf + d);
    SplitAllConserves(cfg, buf + d);
    SplitAllBoundaries(cfg, buf + d);
    assert |s.1| <= |buf + d| by {
      assert |Concat(s.0) + s.1| == |buf + d|;
    }
    if d == "" {
      assert buf + d == buf;
      FirstSplitSpec(cfg, buf);
      assert SplitAll(cfg, buf) == ([], buf);
    } else {
      assert HardCut(cfg, s.1) == ([], s.1);
      assert TimedFlush(s.1, false) == ([], s.1);
      assert s.0 + [] + [] == s.0;
    }
  }

  /** Without hard cuts and time-based flushes, how the text is split into
      deltas does not matter: the chunks are those of scanning the whole
      text at once. */
  lemma {:induction false} FeedAllSplitOnly(cfg: SegmenterConfig, buf: string, deltas: seq<string>, expired: seq<bool>)
    requires |expired| == |deltas|
    requires forall i :: 0 <= i < |expired| ==> !expired[i]
    requires |buf| + |Concat(deltas)| < cfg.maxChars
    requires NoSplitPoint(cfg, buf)
    ensures FeedAll(cfg, buf, deltas, expired) == SplitAll(cfg, buf + Concat(deltas))
    decreases |deltas|
  {
    if deltas == [] {
      assert buf + Concat(deltas) == buf;
      FirstSplitSpec(cfg, buf);
      assert SplitAll(cfg, buf) == ([], buf);
    } else {
      var d := deltas[0];
      var tail := Concat(deltas[1..]);
      assert Concat(deltas) == d + tail;
      StepScanOnly(cfg, buf, d);
      var s := SplitAll(cfg, buf + d);
      FeedAllSplitOnly(cfg, s.1, deltas[1..], expired[1..]);
      var rest := FeedAll(cfg, s.1, deltas[1..], expired[1..]);
      assert FeedAll(cfg, buf, deltas, expired) == (s.0 + rest.0, rest.1);
      SplitAllAppend(cfg, buf + d, tail);
      assert buf + Concat(deltas) == (buf + d) + tail;
    }
  }

  /** The per-reply segmenter state: `buffer` and `seg_idx`. */
  class Segmenter {
    const cfg: SegmenterConfig
    var buffer: string
    var segIdx: nat

    constructor (cfg: SegmenterConfig)
      ensures this.cfg == cfg && buffer == "" && segIdx == 0
    {
      this.cfg := cfg;
      buffer := "";
      segIdx := 0;
    }

    /** `for idx, ch_ in enumerate(buffer)`: the earliest split point. */
    method FindSplit() returns (splitAt: Option<nat>)
      ensures splitAt == FirstSplit(cfg, buffer)
    {
      splitAt := None;
      var idx := 0;
      while idx < |buffer|
        invariant 0 <= idx <= |buffer|
        invariant FirstSplitFrom(cfg, buffer, idx) == FirstSplit(cfg, buffer)
      {
        if buffer[idx] !in cfg.splitChars {
          idx := idx + 1;
          continue;
        }
        if idx + 1 < cfg.minChars {
          idx := idx + 1;
          continue;
        }
        splitAt := Some(idx);
        return;
      }
    }

    /** The inner `while True` loop: emit at the earliest split point
        until the buffer has none. */
    method ScanBuffer() returns (emitted: seq<string>)
      modifies this
      ensures (emitted, buffer) == SplitAll(cfg, old(buffer))
      ensures segIdx == old(segIdx) + |emitted|
    {
      emitted := [];
      ghost var scan := SplitAll(cfg, buffer);
      while true
        invariant segIdx == old(segIdx) + |emitted|
        invariant emitted + SplitAll(cfg, buffer).0 == scan.0
        invariant SplitAll(cfg, buffer).1 == scan.1
        decreases |buffer|
      {
        var splitAt := FindSplit();
        if splitAt.None? {
          break;
        }
        var k := splitAt.value;
        SplitAllAtFirst(cfg, buffer, k);
        AppendAssoc(emitted, [buffer[..k + 1]], SplitAll(cfg, buffer[k + 1..]).0);
        emitted := emitted + [buffer[..k + 1]];
        segIdx := segIdx + 1;
        buffer := buffer[k + 1..];
      }
      assert SplitAll(cfg, buffer) == ([], buffer);
      assert emitted + [] == emitted;
    }

    /** The body of `if ch.text_delta:` in `llm_tts_loop`. `emitted` lists
        the texts passed to `emit_segment`, in order; `seg_idx` grows by one
        per emission. */
    method Feed(delta: string, waitExpired: bool) returns (emitted: seq<string>)
      modifies this
      ensures (emitted, buffer) == Step(cfg, old(buffer), delta, waitExpired)
      ensures segIdx == old(segIdx) + |emitted|
    {
      emitted := [];
      if delta == "" {
        assert Step(cfg, old(buffer), delta, waitExpired) == ([], buffer);
        return;
      }
      buffer := buffer + delta;
      emitted := ScanBuffer();
      ghost var scan := (emitted, buffer);
      ghost var cut := HardCut(cfg, buffer);
      if |buffer| >= cfg.maxChars {
        emitted := emitted + [buffer[..cfg.maxChars]];
        segIdx := segIdx + 1;
        buffer := buffer[cfg.maxChars..];
      }
      assert emitted == scan.0 + cut.0 && buffer == cut.1;
      if buffer != "" && waitExpired {
        emitted := emitted + [buffer];
        segIdx := segIdx + 1;
        buffer := "";
      }
      assert emitted == scan.0 + cut.0 + TimedFlush(cut.1, waitExpired).0;
      assert buffer == TimedFlush(cut.1, waitExpired).1;
    }

    /** The final `if buffer: emit_segment(buffer)`. */
    method Flush() returns (emitted: seq<string>)
      modifies this
      ensures emitted == if old(buffer) == "" then [] else [old(buffer)]
      ensures buffer == "" && segIdx == old(segIdx) + |emitted|
    {
      emitted := [];
      if buffer != "" {
        emitted := [buffer];
        segIdx := segIdx + 1;
        buffer := "";
      }
    }
  }
}
