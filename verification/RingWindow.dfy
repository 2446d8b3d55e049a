/**
 Circular buffers against histories. Five objects of the gateway keep the newest entries of a
 stream in a fixed buffer with a write index and a wrapped flag; each is tied to the sequence of
 everything ever written by `Holds`, and reads are statements about that sequence.
 */
module RingWindow {
  import opened Slots

  function Min(a: nat, b: nat): nat { if a <= b then a else b }

  /** The newest `n` entries of a history, oldest first. */
  function Newest<T>(hist: seq<T>, n: nat): (w: seq<T>)
    requires n <= |hist|
    ensures |w| == n
  {
    hist[|hist| - n..]
  }

  /** What a ring of `cap` cells holds of a history. */
  function Window<T>(hist: seq<T>, cap: nat): seq<T> { Newest(hist, Min(|hist|, cap)) }

  /** The buffer holds the newest min(|hist|, capacity) entries, each at its own slot; `head` is
      the next slot to write and `full` says whether the index has ever wrapped. */
  ghost predicate Holds<T>(buf: seq<T>, head: nat, full: bool, hist: seq<T>) {
    && |buf| > 0
    && head == Slot(|hist|, |buf|)
    && (full <==> |hist| >= |buf|)
    && forall k: nat {:trigger Slot(k, |buf|)} :: k < |hist| <= k + |buf| ==> buf[Slot(k, |buf|)] == hist[k]
  }

  /** The number of entries a reader sees. */
  function Count(cap: nat, head: nat, full: bool): nat { if full then cap else head }

  lemma {:induction false} SlotSucc(k: nat, cap: nat)
    requires cap > 0
    ensures Slot(k + 1, cap) == if Slot(k, cap) + 1 == cap then 0 else Slot(k, cap) + 1
    decreases k
  {
    if k >= cap { SlotSucc(k - cap, cap); }
  }

  lemma Wrap(i: nat, cap: nat)
    requires i < cap
    ensures (i + 1) % cap == if i + 1 == cap then 0 else i + 1
  {
    if i + 1 < cap { ModSmall(i + 1, cap); }
  }

  lemma Empty<T>(buf: seq<T>)
    requires |buf| > 0
    ensures Holds(buf, 0, false, [])
  {
  }

  /** Writing at the head and advancing it appends to the history. */
  lemma Push<T>(buf: seq<T>, head: nat, full: bool, hist: seq<T>, x: T)
    requires Holds(buf, head, full, hist)
    ensures head < |buf|
    ensures Holds(buf[head := x], (head + 1) % |buf|, full || (head + 1) % |buf| == 0, hist + [x])
  {
    var cap, buf' := |buf|, buf[head := x];
    SlotSucc(|hist|, cap);
    Wrap(head, cap);
    if |hist| < cap { assert Slot(|hist|, cap) == |hist|; }
    forall k: nat | k < |hist| + 1 <= k + cap
      ensures buf'[Slot(k, cap)] == (hist + [x])[k]
    {
      if k < |hist| {
        SlotNext(k, |hist|, cap);
        assert buf[Slot(k, cap)] == hist[k];
      }
    }
  }

  lemma CountIs<T>(buf: seq<T>, head: nat, full: bool, hist: seq<T>)
    requires Holds(buf, head, full, hist)
    ensures Count(|buf|, head, full) == Min(|hist|, |buf|)
  {
  }

  lemma {:induction false} SlotSub(k: nat, n: nat, cap: nat)
    requires 0 < cap && n <= k && n <= cap
    ensures Slot(k - n, cap) == if Slot(k, cap) >= n then Slot(k, cap) - n else Slot(k, cap) - n + cap
    decreases k
  {
    if k >= cap {
      if k - n >= cap {
        SlotSub(k - cap, n, cap);
      } else {
        assert Slot(k, cap) == k - cap;
      }
    }
  }

  lemma {:induction false} SlotAdd(k: nat, i: nat, cap: nat)
    requires i < cap
    ensures Slot(k + i, cap) == (Slot(k, cap) + i) % cap
    decreases i
  {
    if i == 0 {
      ModSmall(Slot(k, cap), cap);
    } else {
      SlotAdd(k, i - 1, cap);
      SlotSucc(k + i - 1, cap);
      ModStep(Slot(k, cap) + i - 1, cap);
    }
  }

  lemma ModStep(x: nat, cap: nat)
    requires cap > 0
    ensures (x + 1) % cap == if x % cap + 1 == cap then 0 else x % cap + 1
  {
    if x % cap + 1 == cap {
      DivUnique(x + 1, cap, x / cap + 1, 0);
    } else {
      DivUnique(x + 1, cap, x / cap, x % cap + 1);
    }
  }

  /** Where a reader that wants the newest `n` entries starts. */
  function Start(cap: nat, head: nat, n: nat): int {
    if head - n < 0 then head - n + cap else head - n
  }

  /** The reader's i-th cell holds the i-th of the newest `n` entries. */
  lemma View<T>(buf: seq<T>, head: nat, full: bool, hist: seq<T>, n: nat, i: nat)
    requires Holds(buf, head, full, hist) && i < n <= Min(|hist|, |buf|)
    ensures head < |buf| && Start(|buf|, head, n) >= 0
    ensures buf[(Start(|buf|, head, n) + i) % |buf|] == Newest(hist, n)[i]
  {
    var cap, k := |buf|, |hist| - n;
    SlotSub(|hist|, n, cap);
    SlotAdd(k, i, cap);
    assert buf[Slot(k + i, cap)] == hist[k + i];
  }

  /** The newest entry sits just behind the head. */
  lemma Latest<T>(buf: seq<T>, head: nat, full: bool, hist: seq<T>)
    requires Holds(buf, head, full, hist) && hist != []
    ensures head <= |buf|
    ensures buf[if head == 0 then |buf| - 1 else head - 1] == hist[|hist| - 1]
  {
    SlotSub(|hist|, 1, |buf|);
    assert buf[Slot(|hist| - 1, |buf|)] == hist[|hist| - 1];
  }

  /** Before the wrap the cells in use are the history; after it they are the window, rotated. */
  lemma Rotation<T>(buf: seq<T>, head: nat, full: bool, hist: seq<T>)
    requires Holds(buf, head, full, hist)
    ensures head < |buf|
    ensures !full ==> buf[..head] == hist
    ensures full ==> var w := Newest(hist, |buf|); buf == w[|buf| - head..] + w[..|buf| - head]
  {
    var cap := |buf|;
    if !full {
      forall i | 0 <= i < head ensures buf[i] == hist[i] {
        assert Slot(i, cap) == i;
      }
    } else {
      var w := Newest(hist, cap);
      forall i | 0 <= i < cap ensures buf[i] == (w[cap - head..] + w[..cap - head])[i] {
        var n: nat := if i < head then head - i else head - i + cap;
        SlotSub(|hist|, n, cap);
        assert buf[Slot(|hist| - n, cap)] == hist[|hist| - n];
      }
    }
  }

  /** The entry the next write evicts. */
  lemma Oldest<T>(buf: seq<T>, head: nat, full: bool, hist: seq<T>)
    requires Holds(buf, head, full, hist) && full
    ensures head < |buf| && buf[head] == Newest(hist, |buf|)[0]
  {
    Rotation(buf, head, full, hist);
  }
}
