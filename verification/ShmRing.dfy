/**
 * The shared-memory index ring as one thread sees it, with its bulk operations.  One slot is
 * always left empty, so that equal indices mean an empty ring.
 */
module ShmRing {
  import opened RingIndex
  import opened BoundedQueue
  import opened Options

  /** `n` elements from slot `r` on, around the end of the ring. */
  function Window<T>(d: seq<T>, r: nat, n: nat): (q: seq<T>)
    requires |d| > 0
    ensures |q| == n
  {
    seq(n, i requires 0 <= i => d[Slot(r + i, |d|)])
  }

  /** The number of elements between two indices. */
  function Used(cap: nat, w: nat, r: nat): (n: nat)
    requires w < cap && r < cap
    ensures n < cap
  {
    if w >= r then w - r else cap - r + w
  }

  /** Asking for more than the capacity is cut to capacity - 1, but asking for it exactly is not. */
  function Clip(cap: nat, count: nat): nat
    requires cap > 0
  {
    if count <= cap then count else cap - 1
  }

  /** How many elements a bulk pop takes: in the wrapped case one element is held back. */
  function PopCount(cap: nat, w: nat, r: nat, count: nat): nat
    requires w < cap && r < cap && w != r
  {
    if r < w then (if w - r >= count then count else w - r)
    else (if cap - r + w > count then count else cap - 1 - r + w)
  }

  /**
   * How many of the caller's elements a bulk pop writes: when it ends up taking nothing, because
   * the one element there is held back, its two copy loops go once around the ring all the same.
   */
  function Written(cap: nat, w: nat, r: nat, count: nat): nat
    requires w < cap && r < cap && w != r
  {
    if PopCount(cap, w, r, count) == 0 then cap else PopCount(cap, w, r, count)
  }

  /** A bulk pop writes more elements than it was asked for if and only if it returns none, short of a whole lap. */
  lemma WhenPopOverruns(cap: nat, w: nat, r: nat, count: nat)
    requires w < cap && r < cap && w != r && 0 < count <= cap
    ensures Written(cap, w, r, count) > count <==> Used(cap, w, r) == 1 && w < r && count < cap
  {
  }

  /** Pushing one by one, as long as there is room. */
  function PushEach<T(==)>(bound: nat, q: seq<T>, xs: seq<T>): Option<seq<T>>
    decreases |xs|
  {
    if xs == [] then Some(q)
    else
      match Apply(bound, q, PushOk(xs[0]))
      case None => None
      case Some(q') => PushEach(bound, q', xs[1..])
  }

  lemma {:induction false} PushEachFits<T>(bound: nat, q: seq<T>, xs: seq<T>)
    requires |q| <= bound
    ensures PushEach(bound, q, xs) == if |q| + |xs| <= bound then Some(q + xs) else None
    decreases |xs|
  {
    if xs == [] {
      assert q + xs == q;
    } else if |q| < bound {
      PushEachFits(bound, q + [xs[0]], xs[1..]);
      assert q + [xs[0]] + xs[1..] == q + xs;
    }
  }

  /** Popping one by one, with the elements that come out. */
  function PopEach<T(==)>(bound: nat, q: seq<T>, xs: seq<T>): Option<seq<T>>
    decreases |xs|
  {
    if xs == [] then Some(q)
    else
      match Apply(bound, q, PopOk(xs[0]))
      case None => None
      case Some(q') => PopEach(bound, q', xs[1..])
  }

  lemma {:induction false} PopEachTakesPrefix<T>(bound: nat, q: seq<T>, xs: seq<T>)
    ensures PopEach(bound, q, xs) == if xs <= q then Some(q[|xs|..]) else None
    decreases |xs|
  {
    if xs != [] && |q| > 0 && q[0] == xs[0] {
      PopEachTakesPrefix(bound, q[1..], xs[1..]);
      assert xs[1..] <= q[1..] ==> xs <= q by {
        if xs[1..] <= q[1..] {
          assert xs == [xs[0]] + xs[1..] && q == [q[0]] + q[1..];
        }
      }
      assert xs <= q ==> xs[1..] <= q[1..];
    }
  }

  /** The bulk pop takes all it could exactly when the ring is not wrapped or holds more than asked. */
  lemma PopCountIsMinimum(cap: nat, w: nat, r: nat, count: nat)
    requires w < cap && r < cap && w != r && count > 0
    ensures var size := Used(cap, w, r);
            && PopCount(cap, w, r, count) <= size
            && (PopCount(cap, w, r, count) == (if count <= size then count else size)
                <==> r < w || count < size)
  {
  }

  class Ring<T(0)> {
    const data: array<T>
    var writeIdx: nat
    var readIdx: nat

    ghost predicate Valid()
      reads this
    {
      data.Length > 0 && writeIdx < data.Length && readIdx < data.Length
    }

    /** What the ring holds, oldest first. */
    ghost function Contents(): (q: seq<T>)
      requires Valid()
      reads this, data
      ensures |q| < data.Length
    {
      Window(data[..], readIdx, Used(data.Length, writeIdx, readIdx))
    }

    constructor (capacity: nat)
      requires capacity > 0
      ensures Valid() && data.Length == capacity && Contents() == [] && fresh(data)
    {
      data := new T[capacity];
      writeIdx, readIdx := 0, 0;
    }

    method Push(x: T) returns (ok: bool)
      requires Valid()
      modifies this`writeIdx, data
      ensures Valid()
      ensures ok <==> |old(Contents())| < data.Length - 1
      ensures Contents() == if ok then old(Contents()) + [x] else old(Contents())
    {
      var next := Increment(writeIdx, data.Length);
      NextSlot(writeIdx, data.Length);
      if next == readIdx {
        return false;
      }
      WindowFrame(data[..], readIdx, Used(data.Length, writeIdx, readIdx), writeIdx, [x]);
      data[writeIdx] := x;
      writeIdx := next;
      ok := true;
    }

    method Front() returns (x: Option<T>)
      requires Valid()
      ensures x == if Contents() == [] then None else Some(Contents()[0])
    {
      if writeIdx == readIdx {
        return None;
      }
      x := Some(data[readIdx]);
      WindowHead(data[..], readIdx, Used(data.Length, writeIdx, readIdx));
    }

    method Pop() returns (x: Option<T>)
      requires Valid()
      modifies this`readIdx
      ensures Valid()
      ensures x == if old(Contents()) == [] then None else Some(old(Contents())[0])
      ensures Contents() == if x.None? then old(Contents()) else old(Contents())[1..]
    {
      if writeIdx == readIdx {
        return None;
      }
      x := Some(data[readIdx]);
      WindowHead(data[..], readIdx, Used(data.Length, writeIdx, readIdx));
      WindowSuffix(data[..], readIdx, Used(data.Length, writeIdx, readIdx), 1);
      NextSlot(readIdx, data.Length);
      readIdx := Increment(readIdx, data.Length);
    }

    method PlainPop() returns (ok: bool)
      requires Valid()
      modifies this`readIdx
      ensures Valid() && (ok <==> old(Contents()) != [])
      ensures Contents() == if ok then old(Contents())[1..] else old(Contents())
    {
      if writeIdx == readIdx {
        return false;
      }
      WindowSuffix(data[..], readIdx, Used(data.Length, writeIdx, readIdx), 1);
      readIdx := NextIndexBulk(readIdx, data.Length, 1);
      ok := true;
    }

    /** All or nothing: succeeds if and only if every element fits, and then equals as many pushes. */
    method PushBulk(elements: seq<T>) returns (ok: bool)
      requires Valid() && |elements| > 0
      modifies this`writeIdx, data
      ensures Valid()
      ensures ok <==> 0 < Clip(data.Length, |elements|) <= data.Length - 1 - |old(Contents())|
      ensures Contents() == if ok then old(Contents()) + elements[..Clip(data.Length, |elements|)] else old(Contents())
      ensures ok ==>
        PushEach(data.Length - 1, old(Contents()), elements[..Clip(data.Length, |elements|)]) == Some(Contents())
    {
      hide StoreRun, PushEach;
      PushEachFits(data.Length - 1, Contents(), elements[..Clip(data.Length, |elements|)]);
      var count := Clip(data.Length, |elements|);
      var w, r := writeIdx, readIdx;
      var next := NextIndexBulk(w, data.Length, count);
      if next == r {
        return false;
      }
      var idle := if w >= r then data.Length - 1 - w + r else r - w;
      if idle < count {
        return false;
      }
      WindowFrame(data[..], r, Used(data.Length, w, r), w, elements[..count]);
      ghost var before := data[..];
      StoreNothing(before, w, elements);
      if next > w || next == 0 {
        CopyIn(w, elements, 0, count, w, before);
      } else {
        CopyIn(w, elements, 0, data.Length - w, w, before);
        CopyIn(w, elements, data.Length - w, count, 0, before);
      }
      writeIdx := next;
      ok := true;
    }

    /** The first elements come out in order; `None` stands for FAILED. */
    method PopBulk(elements: array<T>, wanted: nat) returns (n: Option<nat>)
      requires Valid() && wanted > 0 && elements != data
      requires writeIdx != readIdx ==>
                 elements.Length >= Written(data.Length, writeIdx, readIdx, Clip(data.Length, wanted))
      modifies this`readIdx, elements
      ensures Valid()
      ensures n.None? <==> old(Contents()) == []
      ensures n.None? ==> Contents() == old(Contents())
      ensures n.Some? ==>
        && old(writeIdx != readIdx)
        && n.value == PopCount(data.Length, writeIdx, old(readIdx), Clip(data.Length, wanted)) <= |old(Contents())|
        && elements[..n.value] == old(Contents())[..n.value]
        && Contents() == old(Contents())[n.value..]
        && PopEach(data.Length - 1, old(Contents()), elements[..n.value]) == Some(Contents())
    {
      hide PopEach, Window;
      WindowNothing(data[..], readIdx);
      var count := Clip(data.Length, wanted);
      var w, r := writeIdx, readIdx;
      if w == r {
        return None;
      }
      var popCnt := PopCount(data.Length, w, r, count);
      var next := NextIndexBulk(r, data.Length, popCnt);
      if r < w || next > r || next == 0 {
        CopyOut(elements, 0, popCnt, r, r);
      } else {
        CopyOut(elements, 0, data.Length - r, r, r);
        CopyOut(elements, data.Length - r, data.Length - r + next, 0, r);
      }
      WindowSuffix(data[..], r, Used(data.Length, w, r), popCnt);
      WindowPrefix(data[..], r, Used(data.Length, w, r), popCnt);
      PopEachTakesPrefix(data.Length - 1, Contents(), elements[..popCnt]);
      readIdx := next;
      n := Some(popCnt);
    }

    /** One copy loop: elements i0..n are read from consecutive slots from slot `at` on. */
    method CopyOut(elements: array<T>, i0: nat, n: nat, at: nat, ghost r: nat)
      requires Valid() && r < data.Length && elements != data && i0 <= n <= elements.Length
      requires at + (n - i0) <= data.Length && at == Slot(r + i0, data.Length)
      requires elements[..i0] == Window(data[..], r, i0)
      modifies elements
      ensures elements[..n] == Window(data[..], r, n)
    {
      var i := i0;
      while i < n
        invariant i0 <= i <= n
        invariant elements[..i] == Window(data[..], r, i)
      {
        SlotOfSum(r + i0, i - i0, data.Length);
        elements[i] := data[at + i - i0];
        assert elements[..i + 1] == elements[..i] + [elements[i]];
        i := i + 1;
      }
    }

    /** One copy loop: elements i..n go to consecutive slots from slot `at` on. */
    method CopyIn(w: nat, elements: seq<T>, i0: nat, n: nat, at: nat, ghost before: seq<T>)
      requires Valid() && w < data.Length && i0 <= n <= |elements| && n <= data.Length
      requires at + (n - i0) <= data.Length && at == Slot(w + i0, data.Length)
      requires |before| == data.Length && data[..] == StoreRun(before, w, elements[..i0])
      modifies data
      ensures data[..] == StoreRun(before, w, elements[..n])
    {
      hide StoreRun;
      var i := i0;
      while i < n
        invariant i0 <= i <= n
        invariant data[..] == StoreRun(before, w, elements[..i])
      {
        SlotOfSum(w + i0, i - i0, data.Length);
        StoreOneMore(before, w, elements, i);
        data[at + i - i0] := elements[i];
        i := i + 1;
      }
    }
  }

  /** `next_index_bulk`. */
  method NextIndexBulk(current: nat, cap: nat, step: nat) returns (i: nat)
    requires cap > 0
    ensures i == Slot(current + step, cap)
  {
    i := current + step;
    while i >= cap
      invariant Slot(i, cap) == Slot(current + step, cap)
    {
      i := i - cap;
    }
  }

  lemma WindowNothing<T>(d: seq<T>, r: nat)
    requires |d| > 0
    ensures Window(d, r, 0) == []
  {
  }

  lemma WindowPrefix<T>(d: seq<T>, r: nat, n: nat, k: nat)
    requires |d| > 0 && k <= n
    ensures Window(d, r, n)[..k] == Window(d, r, k)
  {
  }

  lemma WindowHead<T>(d: seq<T>, r: nat, n: nat)
    requires r < |d| && n > 0
    ensures Window(d, r, n)[0] == d[r]
  {
    var zero := 0;
    assert Window(d, r, n)[zero] == d[Slot(r + zero, |d|)];
  }

  lemma WindowSuffix<T>(d: seq<T>, r: nat, n: nat, k: nat)
    requires r < |d| && k <= n
    ensures Window(d, r, n)[k..] == Window(d, Slot(r + k, |d|), n - k)
  {
    forall i | 0 <= i < n - k
      ensures Window(d, r, n)[k..][i] == Window(d, Slot(r + k, |d|), n - k)[i]
    {
      SlotOfSum(r + k, i, |d|);
    }
  }

  /** Storing a run of elements behind a window extends the window by them. */
  lemma WindowFrame<T>(d: seq<T>, r: nat, n: nat, w: nat, xs: seq<T>)
    requires r < |d| && n + |xs| <= |d| && w == Slot(r + n, |d|)
    ensures var d' := StoreRun(d, w, xs);
            Window(d', r, n + |xs|) == Window(d, r, n) + xs
  {
    var d' := StoreRun(d, w, xs);
    forall i | 0 <= i < n + |xs|
      ensures d'[Slot(r + i, |d|)] == (Window(d, r, n) + xs)[i]
    {
      StoreRunAt(d, r + n, xs, r + i);
    }
  }

  /** Storing elements one slot after the other, around the end of the ring. */
  function StoreRun<T>(d: seq<T>, w: nat, xs: seq<T>): (d': seq<T>)
    requires w < |d| && |xs| <= |d|
    ensures |d'| == |d|
  {
    if xs == [] then d else StoreRun(d, w, xs[..|xs| - 1])[Slot(w + |xs| - 1, |d|) := xs[|xs| - 1]]
  }

  lemma StoreOneMore<T>(d: seq<T>, w: nat, xs: seq<T>, i: nat)
    requires w < |d| && i < |xs| && i < |d|
    ensures StoreRun(d, w, xs[..i + 1]) == StoreRun(d, w, xs[..i])[Slot(w + i, |d|) := xs[i]]
  {
    assert xs[..i + 1][..i] == xs[..i];
  }

  lemma StoreNothing<T>(d: seq<T>, w: nat, xs: seq<T>)
    requires w < |d|
    ensures StoreRun(d, w, xs[..0]) == d
  {
  }

  lemma {:induction false} StoreRunAt<T>(d: seq<T>, at: nat, xs: seq<T>, k: nat)
    requires |d| > 0 && |xs| <= |d| && k < at + |xs| && at + |xs| <= k + |d|
    ensures StoreRun(d, Slot(at, |d|), xs)[Slot(k, |d|)] == if k >= at then xs[k - at] else d[Slot(k, |d|)]
    decreases |xs|
  {
    if xs != [] {
      var last := at + |xs| - 1;
      SlotOfSum(at, |xs| - 1, |d|);
      SlotsWithinLap(k, last, |d|);
      if k != last {
        StoreRunAt(d, at, xs[..|xs| - 1], k);
      }
    }
  }

  lemma {:induction false} SlotOfSum(a: nat, b: nat, cap: nat)
    requires cap > 0
    ensures Slot(Slot(a, cap) + b, cap) == Slot(a + b, cap)
    decreases a
  {
    if a >= cap {
      SlotOfSum(a - cap, b, cap);
    }
  }
}
