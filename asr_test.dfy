/** The listen/recognise loop of pipeline/asr_test.py: the listener pushes
    each utterance into a bounded queue under one of two policies, and the
    recogniser skips transcripts that are only whitespace. */
module AsrTest {
  import opened Errors
  import opened Text
  import opened Queues

  /** `ListenLoopConfig` without the duration filter. */
  datatype ListenLoopConfig = ListenLoopConfig(keepLatestOnly: bool, maxQueue: int)

  const DefaultListenConfig := ListenLoopConfig(true, 3)

  /** What a single `put_nowait` leaves: the item is appended when the
      queue has room and dropped when it is full. */
  function DropNewestPush<T>(items: seq<T>, x: T, maxsize: int): seq<T> {
    if maxsize > 0 && |items| >= maxsize then items else items + [x]
  }

  /** The queue after `push_audio` under either policy. */
  function Pushed<T>(items: seq<T>, x: T, maxsize: int, keepLatestOnly: bool): seq<T> {
    if keepLatestOnly then EvictPush(items, x, maxsize) else DropNewestPush(items, x, maxsize)
  }

  /** `push_audio`: without `keep_latest_only` one `put_nowait` whose
      `queue.Full` is swallowed; with it, the evict-oldest retry loop. */
  method PushAudio<T>(q: BoundedQueue<T>, cfg: ListenLoopConfig, audio: T)
    modifies q
    ensures q.items == Pushed(old(q.items), audio, q.maxsize, cfg.keepLatestOnly)
  {
    if !cfg.keepLatestOnly {
      var _ := q.PutNowait(audio);
      return;
    }
    q.PutEvictingOldest(audio);
  }

  /** Dropping the newest: a full queue is left exactly as it was, a queue
      with room gains the item at its tail. */
  lemma DropNewestRule<T>(items: seq<T>, x: T, maxsize: int)
    ensures maxsize > 0 && |items| >= maxsize ==> DropNewestPush(items, x, maxsize) == items
    ensures !(maxsize > 0 && |items| >= maxsize) ==>
      var r := DropNewestPush(items, x, maxsize);
      |r| == |items| + 1 && r[..|items|] == items && r[|items|] == x
  {
  }

  /** Under either policy a queue that respects its capacity still does
      afterwards, every surviving item keeps its relative order (the result
      starts with a suffix of the old items, and with all of them when the
      newest is dropped), and with `keep_latest_only` the new item is
      always at the tail. */
  lemma PushPolicies<T>(items: seq<T>, x: T, maxsize: int, keepLatestOnly: bool)
    requires maxsize > 0 ==> |items| <= maxsize
    ensures var r := Pushed(items, x, maxsize, keepLatestOnly);
      && (maxsize > 0 ==> |r| <= maxsize)
      && (keepLatestOnly ==> r != [] && r[|r| - 1] == x
                             && r[..|r| - 1] == items[|items| - (|r| - 1)..])
      && (!keepLatestOnly ==> r == items || r == items + [x])
  {
    if keepLatestOnly {
      EvictPushShape(items, x, maxsize);
    }
  }

  /** With the default configuration the queue holds at most three
      utterances, and a full queue drops its oldest one to make room. */
  lemma DefaultPolicy<T>(items: seq<T>, x: T)
    requires |items| == 3
    ensures Pushed(items, x, DefaultListenConfig.maxQueue, DefaultListenConfig.keepLatestOnly)
         == items[1..] + [x]
  {
    assert (items + [x])[1..] == items[1..] + [x];
  }

  /** `(res.text or "").strip()`, or `None` when that is empty and the
      transcript is skipped. */
  function ShownText(text: Option<string>): (r: Option<string>)
    ensures r.None? <==> text.None? || AllSpace(text.value)
    ensures r.Some? ==>
      && r.value == Strip(text.value) && r.value != []
      && !IsSpace(r.value[0]) && !IsSpace(r.value[|r.value| - 1])
  {
    var t := Strip(if text.Some? then text.value else "");
    if t == "" then None else Some(t)
  }

  /** One round of `asr_loop`: take the oldest utterance if there is one
      (an empty queue is the `get` timing out), and report what would be
      printed for it given the recogniser's transcript. */
  method AsrStep<T>(q: BoundedQueue<T>, transcript: Option<string>) returns (shown: Option<string>)
    modifies q
    ensures old(q.items) == [] ==> shown == None && q.items == []
    ensures old(q.items) != [] ==> shown == ShownText(transcript) && q.items == old(q.items)[1..]
  {
    var audio := q.GetNowait();
    if audio.None? {
      return None;
    }
    shown := ShownText(transcript);
  }
}
