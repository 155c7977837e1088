/** Python's `queue.Queue` used without blocking (`put_nowait`,
    `get_nowait`), the evict-oldest push loop that the pipelines write out
    for it, and the `LatestQueue` mailbox built on top of it. */
module Queues {
  import opened Errors

  /** The last `n` items of `s` (all of `s` when it is shorter). */
  function Newest<T>(s: seq<T>, n: nat): (r: seq<T>)
    ensures |r| == if |s| <= n then |s| else n
    ensures r == s[|s| - |r|..]
  {
    if |s| <= n then s else s[|s| - n..]
  }

  /** What the evict-oldest push loop leaves in a queue of capacity
      `maxsize` (a `maxsize` of zero or less means unbounded, as in
      `queue.Queue`). */
  function EvictPush<T>(items: seq<T>, x: T, maxsize: int): seq<T> {
    if maxsize <= 0 then items + [x] else Newest(items + [x], maxsize)
  }

  /** The push never leaves more than `maxsize` items, always keeps the new
      item at the tail, and keeps the survivors in their old order: the
      result is a suffix of the old items followed by the new one. */
  lemma EvictPushShape<T>(items: seq<T>, x: T, maxsize: int)
    ensures var r := EvictPush(items, x, maxsize);
      && (maxsize > 0 ==> |r| <= maxsize)
      && |r| >= 1 && r[|r| - 1] == x
      && r[..|r| - 1] == items[|items| - (|r| - 1)..]
  {
    var s := items + [x];
    var r := EvictPush(items, x, maxsize);
    var k := |items| + 1 - |r|;
    assert r == s[k..];
    assert r[|r| - 1] == s[|items|] == x;
    assert r[..|r| - 1] == s[k..|items|] == items[k..];
  }

  /** With the default capacity of one, the queue afterwards holds exactly
      the new item. */
  lemma EvictPushSingleSlot<T>(items: seq<T>, x: T)
    ensures EvictPush(items, x, 1) == [x]
  {
  }

  /** One round of the loop: when the queue is full, dropping the oldest
      item does not change where the loop ends up. */
  lemma {:induction false} EvictOneStep<T>(items: seq<T>, x: T, maxsize: int)
    requires maxsize > 0 && |items| >= maxsize
    ensures EvictPush(items[1..], x, maxsize) == EvictPush(items, x, maxsize)
  {
    var n := |items|;
    assert items[1..] + [x] == (items + [x])[1..];
    if n > maxsize {
      assert (items[1..] + [x])[n - maxsize..] == (items + [x])[n + 1 - maxsize..];
    }
  }

  /** `queue.Queue(maxsize)` as far as the non-blocking calls go. */
  class BoundedQueue<T> {
    var items: seq<T>
    const maxsize: int

    constructor (maxsize: int)
      ensures items == [] && this.maxsize == maxsize
    {
      items := [];
      this.maxsize := maxsize;
    }

    /** `queue.Queue.full()` */
    predicate Full()
      reads this
    {
      maxsize > 0 && |items| >= maxsize
    }

    /** `put_nowait`; `ok == false` stands for raising `queue.Full`. */
    method PutNowait(x: T) returns (ok: bool)
      modifies this
      ensures ok == !old(Full())
      ensures items == if ok then old(items) + [x] else old(items)
    {
      ok := !Full();
      if ok {
        items := items + [x];
      }
    }

    /** `get_nowait`; `None` stands for raising `queue.Empty`. A `get` with
        a timeout that expires behaves the same way. */
    method GetNowait() returns (r: Option<T>)
      modifies this
      ensures old(items) == [] ==> r == None && items == []
      ensures old(items) != [] ==> r == Some(old(items)[0]) && items == old(items)[1..]
    {
      if items == [] {
        r := None;
      } else {
        r := Some(items[0]);
        items := items[1..];
      }
    }

    /** The blocking `put`: the item is appended once there is room. The
        waiting is not part of this model, so neither is the capacity. */
    method Put(x: T)
      modifies this
      ensures items == old(items) + [x]
    {
      items := items + [x];
    }

    /** Drain with `get_nowait` until `queue.Empty`. */
    method Clear()
      modifies this
      ensures items == []
    {
      while true
        decreases |items|
      {
        var r := GetNowait();
        if r.None? {
          return;
        }
      }
    }

    /** The loop `while True: try put_nowait(x); return; except Full: try
        get_nowait() except Empty: return`. */
    method PutEvictingOldest(x: T)
      modifies this
      ensures items == EvictPush(old(items), x, maxsize)
    {
      while true
        invariant EvictPush(items, x, maxsize) == EvictPush(old(items), x, maxsize)
        decreases |items|
      {
        var before := items;
        var ok := PutNowait(x);
        if ok {
          return;
        }
        EvictOneStep(before, x, maxsize);
        var r := GetNowait();
        if r.None? {
          return;
        }
      }
    }
  }

  /** The "latest wins" mailbox between recognition and generation. */
  class LatestQueue<T> {
    const q: BoundedQueue<T>

    /** `LatestQueue(maxsize=1)` */
    constructor (maxsize: int)
      ensures fresh(q) && q.items == [] && q.maxsize == maxsize
    {
      q := new BoundedQueue(maxsize);
    }

    /** Never blocks and never grows the queue past its capacity: the oldest
        items are evicted until the new one fits. */
    method Push(x: T)
      modifies q
      ensures q.items == EvictPush(old(q.items), x, q.maxsize)
    {
      q.PutEvictingOldest(x);
    }

    /** `pop(timeout)`: the oldest item, or `None` when nothing arrives. */
    method Pop() returns (r: Option<T>)
      modifies q
      ensures old(q.items) == [] ==> r == None && q.items == []
      ensures old(q.items) != [] ==> r == Some(old(q.items)[0]) && q.items == old(q.items)[1..]
    {
      r := q.GetNowait();
    }
  }
}
