/** The playback side of the speech pipeline (pipeline/asr_llm_tts_stream.py):
    `SegmentState` and `PlaybackBuffer`, which the sound card's callback
    drains while it counts down how much of each synthesized segment has
    been heard. */
module Playback {
  /** One mono sample; `np.zeros` pads with silence. */
  type Sample = int
  const Silence: Sample := 0

  /** `SegmentState` without its timing field. */
  datatype SegmentState = SegmentState(replyId: int, segIdx: int, framesLeft: nat, textLen: nat)

  function Min(a: int, b: int): int {
    if a <= b then a else b
  }

  function Flatten(chunks: seq<seq<Sample>>): seq<Sample> {
    if chunks == [] then [] else chunks[0] + Flatten(chunks[1..])
  }

  /** The samples not yet handed to the sound card: the rest of the head
      chunk from `offset` on, then every later chunk. */
  function Unread(chunks: seq<seq<Sample>>, offset: nat): seq<Sample>
    requires chunks != [] ==> offset <= |chunks[0]|
  {
    if chunks == [] then [] else chunks[0][offset..] + Flatten(chunks[1..])
  }

  lemma {:induction false} FlattenAppend(chunks: seq<seq<Sample>>, data: seq<Sample>)
    ensures Flatten(chunks + [data]) == Flatten(chunks) + data
  {
    if chunks == [] {
      assert [data][1..] == [];
    } else {
      assert (chunks + [data])[1..] == chunks[1..] + [data];
      FlattenAppend(chunks[1..], data);
    }
  }

  /** Appending a chunk appends its samples to what is left to play. */
  lemma UnreadAppend(chunks: seq<seq<Sample>>, offset: nat, data: seq<Sample>)
    requires chunks == [] ==> offset == 0
    requires chunks != [] ==> offset <= |chunks[0]|
    ensures Unread(chunks + [data], offset) == Unread(chunks, offset) + data
  {
    if chunks == [] {
      assert [data][1..] == [];
    } else {
      assert (chunks + [data])[1..] == chunks[1..] + [data];
      FlattenAppend(chunks[1..], data);
    }
  }

  /** The state left by `pop` asking for `need` frames: the loop `while
      filled < frames and self._chunks`, one chunk at a time. */
  function Advance(chunks: seq<seq<Sample>>, offset: nat, need: nat): (r: (seq<seq<Sample>>, nat))
    requires chunks != [] ==> offset <= |chunks[0]|
    ensures r.0 != [] ==> r.1 <= |r.0[0]|
    ensures r.0 == [] ==> r.1 == 0 || (chunks == [] && r.1 == offset)
    decreases |chunks|
  {
    if need == 0 || chunks == [] then (chunks, offset)
    else
      var take := Min(need, |chunks[0]| - offset);
      if offset + take >= |chunks[0]| then Advance(chunks[1..], 0, need - take)
      else (chunks, offset + take)
  }

  /** `pop` hands out exactly the first `need` unread samples, or all of
      them when fewer are left, and leaves the rest in order. */
  lemma {:induction false} AdvanceUnread(chunks: seq<seq<Sample>>, offset: nat, need: nat)
    requires chunks == [] ==> offset == 0
    requires chunks != [] ==> offset <= |chunks[0]|
    ensures var r := Advance(chunks, offset, need);
      Unread(r.0, r.1) == Unread(chunks, offset)[Min(need, |Unread(chunks, offset)|)..]
    decreases |chunks|
  {
    var u := Unread(chunks, offset);
    if need == 0 || chunks == [] {
      assert u[0..] == u;
    } else {
      var take := Min(need, |chunks[0]| - offset);
      UnreadStep(chunks, offset, take);
      if offset + take >= |chunks[0]| {
        AdvanceUnread(chunks[1..], 0, need - take);
        var k := Min(need - take, |u| - take);
        assert take + k == Min(need, |u|);
        assert u[take..][k..] == u[take + k..];
      }
    }
  }

  /** One round of the `pop` loop: taking `take` samples from the head
      chunk hands out the first `take` unread samples; the head chunk is
      dropped once used up. */
  lemma UnreadStep(chunks: seq<seq<Sample>>, offset: nat, take: nat)
    requires chunks != [] && offset + take <= |chunks[0]|
    ensures take <= |Unread(chunks, offset)|
    ensures Unread(chunks, offset)[..take] == chunks[0][offset..offset + take]
    ensures offset + take >= |chunks[0]| ==> Unread(chunks[1..], 0) == Unread(chunks, offset)[take..]
    ensures offset + take < |chunks[0]| ==> Unread(chunks, offset + take) == Unread(chunks, offset)[take..]
  {
    var u := Unread(chunks, offset);
    assert u == chunks[0][offset..] + Flatten(chunks[1..]);
    assert u[..take] == chunks[0][offset..][..take];
    if chunks[1..] != [] {
      assert chunks[1..][0][0..] == chunks[1..][0];
    }
  }

  /** One round of the `pop` loop keeps what the loop knows: the samples
      still unread are those after the `take` just copied, and the state
      the loop ends in is unchanged. */
  lemma RoundState(cs: seq<seq<Sample>>, off: nat, filled: nat, frames: nat, u0: seq<Sample>, target: (seq<seq<Sample>>, nat),
                  take: nat, cs': seq<seq<Sample>>, off': nat)
    requires cs != [] && off <= |cs[0]| && filled < frames && filled <= |u0|
    requires Unread(cs, off) == u0[filled..]
    requires Advance(cs, off, frames - filled) == target
    requires take == Min(frames - filled, |cs[0]| - off)
    requires off + take >= |cs[0]| ==> cs' == cs[1..] && off' == 0
    requires off + take < |cs[0]| ==> cs' == cs && off' == off + take
    ensures filled + take <= |u0| && filled + take <= frames
    ensures cs[0][off..off + take] == u0[filled..][..take]
    ensures cs' == [] ==> off' == 0
    ensures cs' != [] ==> off' <= |cs'[0]|
    ensures Advance(cs', off', frames - (filled + take)) == target
    ensures Unread(cs', off') == u0[filled + take..]
  {
    UnreadStep(cs, off, take);
    assert u0[filled..][take..] == u0[filled + take..];
  }

  function Zeros(n: nat): (r: seq<Sample>)
    ensures |r| == n && forall i :: 0 <= i < n ==> r[i] == Silence
  {
    seq(n, _ => Silence)
  }

  /** Writing the next `take` unread samples over the silence that follows
      the `filled` samples already written. */
  lemma FillStep(u0: seq<Sample>, filled: nat, take: nat, piece: seq<Sample>, frames: nat)
    requires filled + take <= frames && filled + take <= |u0|
    requires piece == u0[filled..][..take]
    ensures var before := u0[..filled] + Zeros(frames - filled);
      before[..filled] + piece + before[filled + take..] == u0[..filled + take] + Zeros(frames - filled - take)
  {
    var before := u0[..filled] + Zeros(frames - filled);
    assert before[..filled] == u0[..filled];
    assert before[filled + take..] == Zeros(frames - filled - take);
    assert u0[..filled + take] == u0[..filled] + piece;
  }

  /** `out[filled : filled + take] = chunk[start : start + take]` */
  method CopyInto(out: array<Sample>, at: nat, src: seq<Sample>)
    requires at + |src| <= out.Length
    modifies out
    ensures out[..] == old(out[..])[..at] + src + old(out[..])[at + |src|..]
  {
    for j := 0 to |src|
      invariant forall k :: 0 <= k < out.Length ==> out[k] == if at <= k < at + j then src[k - at] else old(out[k])
    {
      out[at + j] := src[j];
    }
    ghost var want := old(out[..])[..at] + src + old(out[..])[at + |src|..];
    assert |want| == out.Length;
    forall k | 0 <= k < out.Length
      ensures out[..][k] == want[k]
    {
      if k < at {
      } else if k < at + |src| {
        assert want[k] == src[k - at];
      } else {
        assert want[k] == old(out[..])[k];
      }
    }
  }

  /** One round of the `pop` loop: copy what the head chunk still has, up
      to what is still wanted, and drop the head chunk once it is used up. */
  method PopRound(out: array<Sample>, cs: seq<seq<Sample>>, off: nat, filled: nat, frames: nat,
                  ghost u0: seq<Sample>, ghost target: (seq<seq<Sample>>, nat))
    returns (cs': seq<seq<Sample>>, off': nat, filled': nat)
    requires cs != [] && off <= |cs[0]| && filled < frames && filled <= |u0|
    requires Unread(cs, off) == u0[filled..]
    requires Advance(cs, off, frames - filled) == target
    requires out.Length == frames && out[..] == u0[..filled] + Zeros(frames - filled)
    modifies out
    ensures cs' == [] ==> off' == 0
    ensures cs' != [] ==> off' <= |cs'[0]|
    ensures filled' <= frames && filled' <= |u0|
    ensures Advance(cs', off', frames - filled') == target
    ensures Unread(cs', off') == u0[filled'..]
    ensures out[..] == u0[..filled'] + Zeros(frames - filled')
    ensures |cs'| < |cs| || (cs' == cs && filled' > filled)
  {
    var take: nat := Min(frames - filled, |cs[0]| - off);
    var piece := cs[0][off..off + take];
    cs', off' := cs, off + take;
    if off + take >= |cs[0]| {
      cs', off' := cs[1..], 0;
    }
    RoundState(cs, off, filled, frames, u0, target, take, cs', off');
    FillStep(u0, filled, take, piece, frames);
    ghost var before := out[..];
    CopyInto(out, filled, piece);
    assert out[..] == before[..filled] + piece + before[filled + take..];
    filled' := filled + take;
    assert out[..] == u0[..filled'] + Zeros(frames - filled');
    assert Advance(cs', off', frames - filled') == target;
  }

  /** Sum of `frames_left` over a run of segments. */
  function SumFrames(segs: seq<SegmentState>): nat {
    if segs == [] then 0 else segs[0].framesLeft + SumFrames(segs[1..])
  }

  lemma {:induction false} SumFramesAppend(a: seq<SegmentState>, b: seq<SegmentState>)
    ensures SumFrames(a + b) == SumFrames(a) + SumFrames(b)
  {
    if a == [] {
      assert a + b == b;
    } else {
      assert (a + b)[1..] == a[1..] + b;
      SumFramesAppend(a[1..], b);
    }
  }

  /** What identifies a segment, whatever its countdown. */
  function Labels(segs: seq<SegmentState>): (r: seq<(int, int, nat)>)
    ensures |r| == |segs|
  {
    seq(|segs|, i requires 0 <= i < |segs| => (segs[i].replyId, segs[i].segIdx, segs[i].textLen))
  }

  /** The loop of `consume`: whole segments move, in order, to the
      completed queue while the frames played cover them; the next one has
      its countdown reduced by what is left. */
  function ConsumeSpec(segs: seq<SegmentState>, completed: seq<SegmentState>, remaining: nat): (seq<SegmentState>, seq<SegmentState>)
    decreases |segs|
  {
    if remaining == 0 || segs == [] then (segs, completed)
    else if remaining >= segs[0].framesLeft then
      ConsumeSpec(segs[1..], completed + [segs[0]], remaining - segs[0].framesLeft)
    else
      ([segs[0].(framesLeft := segs[0].framesLeft - remaining)] + segs[1..], completed)
  }

  /** `consume(n)` reduces the frames still owed by the pending segments by
      `n`, or to zero when fewer are owed. */
  lemma {:induction false} ConsumeSum(segs: seq<SegmentState>, completed: seq<SegmentState>, n: nat)
    ensures SumFrames(ConsumeSpec(segs, completed, n).0) == SumFrames(segs) - Min(n, SumFrames(segs))
    decreases |segs|
  {
    if n != 0 && segs != [] {
      if n >= segs[0].framesLeft {
        ConsumeSum(segs[1..], completed + [segs[0]], n - segs[0].framesLeft);
      } else {
        var head := segs[0].(framesLeft := segs[0].framesLeft - n);
        assert ([head] + segs[1..])[1..] == segs[1..];
      }
    }
  }

  /** `consume` neither loses, duplicates nor reorders segments: the
      completed queue grows by a prefix of the pending ones, taken whole,
      whose frames were all played; the labels of completed-then-pending
      are unchanged. */
  lemma {:induction false} ConsumeOrder(segs: seq<SegmentState>, completed: seq<SegmentState>, n: nat)
    ensures var (s, c) := ConsumeSpec(segs, completed, n);
      && |completed| <= |c| <= |completed| + |segs|
      && c == completed + segs[..|c| - |completed|]
      && SumFrames(segs[..|c| - |completed|]) <= n
      && Labels(c + s) == Labels(completed + segs)
    decreases |segs|
  {
    if n == 0 || segs == [] {
      assert segs[..0] == [];
      assert completed + [] == completed;
    } else if n >= segs[0].framesLeft {
      var completed' := completed + [segs[0]];
      ConsumeOrder(segs[1..], completed', n - segs[0].framesLeft);
      var (s, c) := ConsumeSpec(segs[1..], completed', n - segs[0].framesLeft);
      var k := |c| - |completed'|;
      assert segs[..k + 1] == [segs[0]] + segs[1..][..k];
      assert c == completed + segs[..k + 1];
      assert segs[..k + 1][1..] == segs[1..][..k];
      assert completed' + segs[1..] == completed + segs;
    } else {
      var head := segs[0].(framesLeft := segs[0].framesLeft - n);
      assert segs[..0] == [];
      assert completed + [] == completed;
      assert Labels(completed + ([head] + segs[1..])) == Labels(completed + segs) by {
        var a := completed + ([head] + segs[1..]);
        var b := completed + segs;
        assert |a| == |b|;
        forall i | 0 <= i < |a| ensures Labels(a)[i] == Labels(b)[i] {
          if i >= |completed| + 1 {
            assert a[i] == b[i];
          }
        }
      }
    }
  }

  /** The playback buffer shared by the playback worker and the sound
      card's callback. */
  class PlaybackBuffer {
    var chunks: seq<seq<Sample>>
    var offset: nat
    var segments: seq<SegmentState>
    var completed: seq<SegmentState>

    /** The offset points into the head chunk (and is zero without one). */
    predicate Valid()
      reads this
    {
      (chunks == [] ==> offset == 0) && (chunks != [] ==> offset <= |chunks[0]|)
    }

    /** The frames the pending segments still count down equal the samples
        still to be played. */
    predicate Accounted()
      reads this
    {
      Valid() && SumFrames(segments) == |Unread(chunks, offset)|
    }

    constructor ()
      ensures chunks == [] && offset == 0 && segments == [] && completed == []
      ensures Accounted()
    {
      chunks := [];
      offset := 0;
      segments := [];
      completed := [];
    }

    /** `clear` */
    method Clear()
      modifies this
      ensures chunks == [] && offset == 0 && segments == [] && completed == []
      ensures Accounted()
    {
      chunks := [];
      segments := [];
      completed := [];
      offset := 0;
    }

    /** `push`: the samples of one synthesized segment and its countdown. */
    method Push(data: seq<Sample>, seg: SegmentState)
      requires Valid()
      modifies this
      ensures chunks == old(chunks) + [data] && segments == old(segments) + [seg]
      ensures offset == old(offset) && completed == old(completed)
      ensures Valid() && Unread(chunks, offset) == old(Unread(chunks, offset)) + data
      ensures old(Accounted()) && seg.framesLeft == |data| ==> Accounted()
    {
      UnreadAppend(chunks, offset, data);
      SumFramesAppend(segments, [seg]);
      chunks := chunks + [data];
      segments := segments + [seg];
    }

    /** `pop(frames, channels)` with one channel: the next `frames` samples,
        padded with silence, and how many of them are real. */
    method Pop(frames: nat) returns (out: array<Sample>, filled: nat)
      requires Valid()
      modifies this
      ensures fresh(out) && out.Length == frames
      ensures filled == Min(frames, |old(Unread(chunks, offset))|)
      ensures out[..] == old(Unread(chunks, offset))[..filled] + Zeros(frames - filled)
      ensures (chunks, offset) == Advance(old(chunks), old(offset), frames)
      ensures segments == old(segments) && completed == old(completed)
      ensures Valid() && Unread(chunks, offset) == old(Unread(chunks, offset))[filled..]
    {
      out := new Sample[frames](_ => Silence);
      assert out[..] == Zeros(frames);
      filled := 0;
      if chunks == [] {
        return;
      }
      var cs: seq<seq<Sample>>, off: nat := chunks, offset;
      ghost var u0 := Unread(cs, off);
      ghost var target := Advance(cs, off, frames);
      while filled < frames && cs != []
        invariant cs == [] ==> off == 0
        invariant cs != [] ==> off <= |cs[0]|
        invariant filled <= frames && filled <= |u0|
        invariant Advance(cs, off, frames - filled) == target
        invariant Unread(cs, off) == u0[filled..]
        invariant out.Length == frames && out[..] == u0[..filled] + Zeros(frames - filled)
        modifies out
        decreases |cs|, frames - filled
      {
        cs, off, filled := PopRound(out, cs, off, filled, frames, u0, target);
      }
      chunks, offset := cs, off;
      assert out[..filled] == u0[..filled];
    }

    /** `consume(frames)` */
    method Consume(frames: nat)
      modifies this
      ensures (segments, completed) == ConsumeSpec(old(segments), old(completed), frames)
      ensures chunks == old(chunks) && offset == old(offset)
    {
      var remaining: nat := frames;
      while remaining > 0 && segments != []
        invariant ConsumeSpec(segments, completed, remaining) == ConsumeSpec(old(segments), old(completed), frames)
        invariant chunks == old(chunks) && offset == old(offset)
        decreases |segments|, remaining
      {
        var seg := segments[0];
        if remaining >= seg.framesLeft {
          remaining := remaining - seg.framesLeft;
          segments := segments[1..];
          completed := completed + [seg];
        } else {
          segments := [seg.(framesLeft := seg.framesLeft - remaining)] + segments[1..];
          remaining := 0;
        }
      }
    }

    /** `pop_completed` */
    method PopCompleted() returns (done: seq<SegmentState>)
      modifies this
      ensures done == old(completed) && completed == []
      ensures chunks == old(chunks) && offset == old(offset) && segments == old(segments)
    {
      done := [];
      while completed != []
        invariant done + completed == old(completed)
        invariant chunks == old(chunks) && offset == old(offset) && segments == old(segments)
        decreases |completed|
      {
        done := done + [completed[0]];
        completed := completed[1..];
      }
    }

    /** The sound card's `callback`: pop, then count the real samples
        against the pending segments. The countdown stays in step with the
        audio. */
    method Callback(frames: nat) returns (out: array<Sample>)
      requires Accounted()
      modifies this
      ensures fresh(out) && out.Length == frames
      ensures var u := old(Unread(chunks, offset));
        out[..] == u[..Min(frames, |u|)] + Zeros(frames - Min(frames, |u|))
      ensures Accounted()
      ensures var u := old(Unread(chunks, offset));
        Unread(chunks, offset) == u[Min(frames, |u|)..]
      ensures (segments, completed) == ConsumeSpec(old(segments), old(completed), Min(frames, |old(Unread(chunks, offset))|))
      ensures SumFrames(segments) == old(SumFrames(segments)) - Min(frames, old(SumFrames(segments)))
    {
      ghost var u := Unread(chunks, offset);
      ghost var sum := SumFrames(segments);
      var filled;
      out, filled := Pop(frames);
      if filled > 0 {
        ConsumeSum(segments, completed, filled);
        Consume(filled);
      }
      assert SumFrames(segments) == sum - filled;
      assert |Unread(chunks, offset)| == |u| - filled;
    }
  }
}
