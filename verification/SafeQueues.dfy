/** SafeQueue.h: the bounded queue between the threads of the pipeline. A full queue drops its
    oldest item. Each method is one critical section. */
module SafeQueues {
  import opened Options

  /** The counters are 64 bits wide. */
  const WORD: nat := 0x1_0000_0000_0000_0000

  predicate Full<T>(q: seq<T>, max: nat) { max > 0 && |q| >= max }

  function Enqueued<T>(q: seq<T>, x: T, max: nat): seq<T> { (if Full(q, max) then q[1..] else q) + [x] }

  function Count(bs: seq<bool>): nat { if bs == [] then 0 else Count(bs[..|bs| - 1]) + if bs[|bs| - 1] then 1 else 0 }

  lemma CountMore(bs: seq<bool>, b: bool)
    ensures Count(bs + [b]) == Count(bs) + if b then 1 else 0
  {
    assert (bs + [b])[..|bs|] == bs;
  }

  /** With room nothing is dropped, else the oldest item; a lower limit does not shorten a queue
      by itself. */
  lemma EnqueuedExactly<T>(q: seq<T>, x: T, max: nat)
    ensures max == 0 || |q| < max ==> Enqueued(q, x, max) == q + [x]
    ensures 0 < max <= |q| ==> Enqueued(q, x, max) == q[1..] + [x]
    ensures 0 < max && |q| <= max ==> |Enqueued(q, x, max)| <= max
  {
  }

  class SafeQueue<T> {
    var q: seq<T>
    var terminated: bool
    var maxSize: nat     // 0: no limit
    var dropCount: nat
    ghost var entered: seq<T>   // every item ever put in, oldest first
    ghost var gone: seq<bool>   // the items that left, oldest first, and whether they were dropped

    constructor ()
      ensures Valid() && fresh(this) && q == [] && !terminated && maxSize == 0 && dropCount == 0 && entered == [] && gone == []
    {
      q, terminated, maxSize, dropCount, entered, gone := [], false, 0, 0, [], [];
    }

    /** Items leave in the order they came: what is left is a tail of all that was put in. */
    ghost predicate Valid()
      reads this`q, this`dropCount, this`entered, this`gone
    {
      |gone| <= |entered| && q == entered[|gone|..] && dropCount == Count(gone) % WORD
    }

    method SetMaxSize(n: nat)
      requires Valid()
      modifies this`maxSize
      ensures Valid() && maxSize == n
    {
      maxSize := n;
    }

    /** A queue with room keeps all its items; a full one drops its oldest. */
    method Enqueue(x: T)
      requires Valid()
      modifies this`q, this`dropCount, this`entered, this`gone
      ensures Valid() && entered == old(entered) + [x]
      ensures maxSize == 0 || |old(q)| < maxSize ==> q == old(q) + [x] && gone == old(gone) && dropCount == old(dropCount)
      ensures 0 < maxSize <= |old(q)| ==> q == old(q)[1..] + [x] && gone == old(gone) + [true] && dropCount == (old(dropCount) + 1) % WORD
    {
      if maxSize > 0 && |q| >= maxSize {
        CountMore(gone, true);
        q := q[1..];
        dropCount := (dropCount + 1) % WORD;
        gone := gone + [true];
      }
      q := q + [x];
      entered := entered + [x];
    }

    /** The next item, or none when the queue is terminated or stayed empty. */
    method DequeueWaitFor() returns (r: Option<T>)
      requires Valid()
      modifies this`q, this`gone
      ensures Valid()
      ensures r.None? <==> old(terminated) || old(q) == []
      ensures r.None? ==> q == old(q) && gone == old(gone)
      ensures r.Some? ==> r.value == entered[|old(gone)|] && old(q) == [r.value] + q && gone == old(gone) + [false]
    {
      if terminated || |q| == 0 { return None; }
      CountMore(gone, false);
      r := Some(q[0]);
      q := q[1..];
      gone := gone + [false];
    }

    method Terminate()
      requires Valid()
      modifies this`terminated
      ensures Valid() && terminated
    {
      terminated := true;
    }

    /** Empties the queue in one critical section and gives its items to the caller's action. */
    method Swap() returns (items: seq<T>)
      requires Valid()
      modifies this`q, this`gone
      ensures Valid() && items == old(q) && q == [] && |gone| == |entered|
      ensures Count(gone) == Count(old(gone))
    {
      items := q;
      q := [];
      ghost var start := gone;
      for k := 0 to |items|
        modifies this`gone
        invariant |gone| == |start| + k && Count(gone) == Count(start)
      {
        CountMore(gone, false);
        gone := gone + [false];
      }
    }
  }
}
