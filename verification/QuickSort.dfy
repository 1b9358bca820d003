/**
 * Sorting a list in place: quicksort with an explicit stack of segments.  Nodes keep their places
 * and only items move, so a list is an array of items here and a node is a position in it.
 */
module QuickSort {

  type Comparator<!T> = (T, T) -> int

  /** What a comparator must satisfy for "sorted" to make sense. */
  ghost predicate TotalPreorder<T(!new)>(cmp: Comparator<T>) {
    && (forall x, y :: cmp(x, y) > 0 ==> cmp(y, x) <= 0)
    && (forall x, y, z :: cmp(x, y) <= 0 && cmp(y, z) <= 0 ==> cmp(x, z) <= 0)
  }

  ghost predicate Sorted<T>(cmp: Comparator<T>, s: seq<T>) {
    forall p, q :: 0 <= p < q < |s| ==> cmp(s[p], s[q]) <= 0
  }

  /** A segment still to be sorted, with the item its first node had when it was pushed. */
  datatype Segment<T> = Segment(lo: nat, hi: nat, value: T)

  predicate SegmentOf<T(==)>(g: Segment<T>, s: seq<T>) {
    g.lo < g.hi < |s| && s[g.lo] == g.value
  }

  predicate Apart<T>(g: Segment<T>, h: Segment<T>) {
    g.hi < h.lo || h.hi < g.lo
  }

  /** Pending segments do not overlap, and each still starts with the item saved for it. */
  predicate Pending<T(==)>(stack: seq<Segment<T>>, s: seq<T>) {
    && (forall i :: 0 <= i < |stack| ==> SegmentOf(stack[i], s))
    && (forall i, j :: 0 <= i < j < |stack| ==> Apart(stack[i], stack[j]))
  }

  predicate Within<T>(g: Segment<T>, p: nat, q: nat) {
    g.lo <= p && q <= g.hi
  }

  /** Two positions are in order, or some pending segment holds both. */
  ghost predicate Settled<T>(cmp: Comparator<T>, stack: seq<Segment<T>>, s: seq<T>) {
    forall p, q :: 0 <= p < q < |s| ==>
      cmp(s[p], s[q]) <= 0 || exists i :: 0 <= i < |stack| && Within(stack[i], p, q)
  }

  /** The list with the item `k` in the hole at `h`. */
  function Filled<T>(s: seq<T>, h: nat, k: T): seq<T>
    requires h < |s|
  {
    s[h := k]
  }

  lemma MoveHole<T>(s: seq<T>, h: nat, h': nat, k: T)
    requires h < |s| && h' < |s|
    ensures multiset(Filled(s[h := s[h']], h', k)) == multiset(Filled(s, h, k))
  {
    var a, b := Filled(s[h := s[h']], h', k), Filled(s, h, k);
    if h == h' {
      assert a == b;
    } else {
      assert a == b[h := b[h']][h' := b[h]];
      Swapped(b, h, h');
    }
  }

  lemma Swapped<T>(b: seq<T>, i: nat, j: nat)
    requires i < |b| && j < |b| && i != j
    ensures multiset(b[i := b[j]][j := b[i]]) == multiset(b)
  {
    var once := b[i := b[j]];
    assert multiset(once) == multiset(b) - multiset{b[i]} + multiset{b[j]};
    assert multiset(once[j := b[i]]) == multiset(once) - multiset{once[j]} + multiset{b[i]};
  }

  /** Everything in the segment came from the segment. */
  ghost predicate Drawn<T>(s: seq<T>, old_: seq<T>, lo: nat, hi: nat)
    requires lo <= hi < |s| == |old_|
  {
    && (forall p :: lo <= p <= hi ==> s[p] in old_[lo..hi + 1])
    && (forall p :: 0 <= p < |s| && !(lo <= p <= hi) ==> s[p] == old_[p])
  }

  lemma DrawnMove<T>(s: seq<T>, old_: seq<T>, lo: nat, hi: nat, to: nat, x: T)
    requires lo <= to <= hi < |s| == |old_| && Drawn(s, old_, lo, hi) && x in old_[lo..hi + 1]
    ensures Drawn(s[to := x], old_, lo, hi)
  {
  }

  lemma DrawnAt<T>(s: seq<T>, old_: seq<T>, lo: nat, hi: nat, p: nat)
    requires lo <= p <= hi < |s| == |old_| && Drawn(s, old_, lo, hi)
    ensures s[p] in old_[lo..hi + 1]
  {
  }

  /** The first inner loop: down to the first item that belongs on the left. */
  method SkipLarger<T>(a: array<T>, cmp: Comparator<T>, i: nat, j: nat, k: T) returns (j': nat)
    requires i <= j < a.Length
    ensures i <= j' <= j && (j' == i || cmp(a[j'], k) <= 0)
    ensures forall p :: j' < p <= j ==> cmp(a[p], k) > 0
  {
    j' := j;
    while cmp(a[j'], k) > 0 && i != j'
      invariant i <= j' <= j && forall p :: j' < p <= j ==> cmp(a[p], k) > 0
      decreases j'
    {
      j' := j' - 1;
    }
  }

  /** The second inner loop: up to the first item that belongs on the right. */
  method SkipSmaller<T>(a: array<T>, cmp: Comparator<T>, i: nat, j: nat, k: T) returns (i': nat)
    requires i <= j < a.Length
    ensures i <= i' <= j && (i' == j || cmp(a[i'], k) > 0)
    ensures forall p :: i <= p < i' ==> cmp(a[p], k) <= 0
  {
    i' := i;
    while cmp(a[i'], k) <= 0 && i' != j
      invariant i <= i' <= j && forall p :: i <= p < i' ==> cmp(a[p], k) <= 0
      decreases j - i'
    {
      i' := i' + 1;
    }
  }

  /** The item at `from` goes into the hole at `to`, and leaves the hole at `from`. */
  method MoveItem<T(==)>(a: array<T>, from: nat, to: nat, k: T, ghost s0: seq<T>, ghost lo: nat, ghost hi: nat)
    requires lo <= from <= hi < a.Length == |s0| && lo <= to <= hi && Drawn(a[..], s0, lo, hi)
    modifies a
    ensures a[..] == old(a[..])[to := old(a[from])] && Drawn(a[..], s0, lo, hi)
    ensures multiset(Filled(a[..], from, k)) == multiset(Filled(old(a[..]), to, k))
  {
    MoveHole(a[..], to, from, k);
    DrawnAt(a[..], s0, lo, hi, from);
    DrawnMove(a[..], s0, lo, hi, to, a[from]);
    a[to] := a[from];
    assert a[..] == old(a[..])[to := old(a[from])];
  }

  /** One pass of the loop over a segment: the pivot's place, smaller items left, larger ones right. */
  method Partition<T(==)>(a: array<T>, cmp: Comparator<T>, lo: nat, hi: nat, k: T) returns (i: nat)
    requires lo < hi < a.Length && a[lo] == k
    modifies a
    ensures lo <= i <= hi && a[i] == k
    ensures multiset(a[..]) == multiset(old(a[..])) && Drawn(a[..], old(a[..]), lo, hi)
    ensures forall p :: lo <= p < i ==> cmp(a[p], k) <= 0
    ensures forall p :: i < p <= hi ==> cmp(a[p], k) > 0
  {
    hide Filled, Drawn;
    i := lo;
    var j := hi;
    ghost var s0 := a[..];
    StartHole(s0, lo, hi, k);
    while i != j
      invariant lo <= i <= j <= hi
      invariant Drawn(a[..], s0, lo, hi) && multiset(Filled(a[..], i, k)) == multiset(s0)
      invariant forall p :: lo <= p < i ==> cmp(a[p], k) <= 0
      invariant forall p :: j < p <= hi ==> cmp(a[p], k) > 0
      decreases j - i
    {
      j := SkipLarger(a, cmp, i, j, k);
      MoveItem(a, j, i, k, s0, lo, hi);
      i := SkipSmaller(a, cmp, i, j, k);
      MoveItem(a, i, j, k, s0, lo, hi);
    }
    StartHole(s0, lo, hi, k);
    DrawnMove(a[..], s0, lo, hi, i, k);
    FillHole(a[..], i, k);
    a[i] := k;
  }

  lemma StartHole<T>(s: seq<T>, lo: nat, hi: nat, k: T)
    requires lo <= hi < |s| && s[lo] == k
    ensures Drawn(s, s, lo, hi) && Filled(s, lo, k) == s && k in s[lo..hi + 1]
  {
    assert s[lo..hi + 1][0] == k;
    assert forall p :: lo <= p <= hi ==> s[p] == s[lo..hi + 1][p - lo];
  }

  lemma FillHole<T>(s: seq<T>, i: nat, k: T)
    requires i < |s|
    ensures Filled(s, i, k) == s[i := k]
  {
  }

  // ---------- the stack ----------

  function Left<T>(g: Segment<T>, i: nat, s: seq<T>): seq<Segment<T>>
    requires g.lo <= i <= g.hi < |s|
  {
    if i != g.lo && i - 1 != g.lo then [Segment(g.lo, i - 1, s[g.lo])] else []
  }

  function Right<T>(g: Segment<T>, i: nat, s: seq<T>): seq<Segment<T>>
    requires g.lo <= i <= g.hi < |s|
  {
    if i != g.hi && i + 1 != g.hi then [Segment(i + 1, g.hi, s[i + 1])] else []
  }

  /** How much the pending segments leave to do. */
  function Work<T>(stack: seq<Segment<T>>): (n: nat) {
    if stack == [] then 0 else Work(stack[..|stack| - 1]) + Size(stack[|stack| - 1])
  }

  function Size<T>(g: Segment<T>): nat { if g.lo < g.hi then g.hi - g.lo else 0 }

  lemma WorkMore<T>(stack: seq<Segment<T>>, top: Segment<T>)
    ensures Work(stack + [top]) == Work(stack) + Size(top)
  {
    assert (stack + [top])[..|stack|] == stack;
  }

  lemma WorkDrops<T>(rest: seq<Segment<T>>, g: Segment<T>, i: nat, s: seq<T>)
    requires g.lo < g.hi < |s| && g.lo <= i <= g.hi
    ensures Work(rest + Left(g, i, s) + Right(g, i, s)) < Work(rest + [g])
  {
    hide Work;
    var l, r := Left(g, i, s), Right(g, i, s);
    WorkMore(rest, g);
    if l == [] {
      assert rest + l == rest;
    } else {
      WorkMore(rest, l[0]);
    }
    if r == [] {
      assert rest + l + r == rest + l;
    } else {
      WorkMore(rest + l, r[0]);
    }
  }

  /** Pending segments other than the one sorted keep their items. */
  lemma PendingStep<T>(rest: seq<Segment<T>>, g: Segment<T>, i: nat, s: seq<T>, s': seq<T>)
    requires Pending(rest + [g], s) && g.lo <= i <= g.hi < |s| == |s'| && Drawn(s', s, g.lo, g.hi)
    ensures Pending(rest + Left(g, i, s') + Right(g, i, s'), s')
  {
    var before, stack := rest + [g], rest + Left(g, i, s') + Right(g, i, s');
    assert before[|rest|] == g;
    forall j | 0 <= j < |rest|
      ensures SegmentOf(rest[j], s') && Apart(rest[j], g)
    {
      assert before[j] == rest[j];
    }
    forall j, k | 0 <= j < k < |stack|
      ensures Apart(stack[j], stack[k])
    {
      if k < |rest| {
        assert Apart(before[j], before[k]);
      }
    }
  }

  /** Items on one side of a segment are in order with whatever the segment holds. */
  lemma SideStep<T>(cmp: Comparator<T>, rest: seq<Segment<T>>, g: Segment<T>, s: seq<T>, p: nat, q: nat)
    requires Pending(rest + [g], s) && Settled(cmp, rest + [g], s)
    requires g.lo <= g.hi < |s| && p < q < |s|
    requires (p < g.lo && g.lo <= q <= g.hi) || (g.lo <= p <= g.hi && g.hi < q)
    ensures cmp(s[p], s[q]) <= 0
  {
    var before := rest + [g];
    assert before[|rest|] == g;
    forall i | 0 <= i < |before|
      ensures !Within(before[i], p, q)
    {
      assert i < |rest| ==> Apart(before[i], before[|rest|]);
    }
  }

  lemma OutsideStep<T>(cmp: Comparator<T>, rest: seq<Segment<T>>, g: Segment<T>, s: seq<T>, p: nat, q: nat)
    requires Settled(cmp, rest + [g], s) && p < q < |s| && !Within(g, p, q)
    ensures cmp(s[p], s[q]) <= 0 || exists i :: 0 <= i < |rest| && Within(rest[i], p, q)
  {
    var before := rest + [g];
    if cmp(s[p], s[q]) > 0 {
      var i :| 0 <= i < |before| && Within(before[i], p, q);
      assert i < |rest| && rest[i] == before[i];
    }
  }

  ghost predicate Split<T>(cmp: Comparator<T>, g: Segment<T>, i: nat, s: seq<T>) {
    && g.lo <= i <= g.hi < |s|
    && (forall p :: g.lo <= p < i ==> cmp(s[p], s[i]) <= 0)
    && (forall p :: i < p <= g.hi ==> cmp(s[p], s[i]) > 0)
  }

  lemma InsideStep<T(!new)>(cmp: Comparator<T>, g: Segment<T>, i: nat, s: seq<T>, p: nat, q: nat)
    requires TotalPreorder(cmp) && Split(cmp, g, i, s) && g.lo <= p < q <= g.hi
    ensures cmp(s[p], s[q]) <= 0 || (exists h :: h in Left(g, i, s) + Right(g, i, s) && Within(h, p, q))
  {
    var both := Left(g, i, s) + Right(g, i, s);
    if q < i {
      assert both[0] in both && Within(both[0], p, q);
    } else if i < p {
      assert both[|both| - 1] in both && Within(both[|both| - 1], p, q);
    } else {
      assert cmp(s[p], s[i]) <= 0 || p == i;
      assert cmp(s[i], s[q]) <= 0 || q == i;
    }
  }

  lemma SettledStep<T(!new)>(cmp: Comparator<T>, rest: seq<Segment<T>>, g: Segment<T>, i: nat, s: seq<T>, s': seq<T>)
    requires TotalPreorder(cmp) && Pending(rest + [g], s) && Settled(cmp, rest + [g], s)
    requires |s| == |s'| && Split(cmp, g, i, s') && Drawn(s', s, g.lo, g.hi)
    ensures Settled(cmp, rest + Left(g, i, s') + Right(g, i, s'), s')
  {
    hide TotalPreorder, Pending, Settled, Left, Right, Drawn, Within;
    var stack := rest + Left(g, i, s') + Right(g, i, s');
    forall p: nat, q: nat | p < q < |s'|
      ensures cmp(s'[p], s'[q]) <= 0 || exists j :: 0 <= j < |stack| && Within(stack[j], p, q)
    {
      PairStep(cmp, rest, g, i, s, s', p, q);
      if cmp(s'[p], s'[q]) > 0 {
        var h :| h in stack && Within(h, p, q);
      }
    }
    assert Settled(cmp, stack, s') by {
      SettledBy(cmp, stack, s');
    }
  }

  lemma SettledBy<T>(cmp: Comparator<T>, stack: seq<Segment<T>>, s: seq<T>)
    requires forall p, q :: 0 <= p < q < |s| ==>
               cmp(s[p], s[q]) <= 0 || exists i :: 0 <= i < |stack| && Within(stack[i], p, q)
    ensures Settled(cmp, stack, s)
  {
  }

  lemma PairStep<T(!new)>(cmp: Comparator<T>, rest: seq<Segment<T>>, g: Segment<T>, i: nat, s: seq<T>, s': seq<T>,
                          p: nat, q: nat)
    requires TotalPreorder(cmp) && Pending(rest + [g], s) && Settled(cmp, rest + [g], s)
    requires |s| == |s'| && Split(cmp, g, i, s') && Drawn(s', s, g.lo, g.hi) && p < q < |s'|
    ensures cmp(s'[p], s'[q]) <= 0 || (exists h :: h in rest + Left(g, i, s') + Right(g, i, s') && Within(h, p, q))
  {
    hide TotalPreorder, Pending, Settled, Left, Right;
    var stack := rest + Left(g, i, s') + Right(g, i, s');
    if g.lo <= p && q <= g.hi {
      InsideStep(cmp, g, i, s', p, q);
    } else if p < g.lo && g.lo <= q <= g.hi {
      var q' :| g.lo <= q' <= g.hi && s[q'] == s'[q];
      SideStep(cmp, rest, g, s, p, q');
    } else if g.lo <= p <= g.hi && g.hi < q {
      var p' :| g.lo <= p' <= g.hi && s[p'] == s'[p];
      SideStep(cmp, rest, g, s, p', q);
    } else {
      OutsideStep(cmp, rest, g, s, p, q);
      if cmp(s[p], s[q]) > 0 {
        var j :| 0 <= j < |rest| && Within(rest[j], p, q);
        assert rest[j] in stack;
      }
    }
  }

  /**
   * Sorts in place, for every comparator a permutation of the list, and for a comparator that is
   * a total preorder in its order.
   */
  method Sort<T(==,!new)>(a: array<T>, cmp: Comparator<T>)
    modifies a
    ensures multiset(a[..]) == multiset(old(a[..]))
    ensures TotalPreorder(cmp) ==> Sorted(cmp, a[..])
  {
    hide TotalPreorder, Drawn, Split, Pending, Settled, Work, Sorted;
    StartSorting(cmp, a[..]);
    if a.Length < 2 {
      return;
    }
    var stack := [Segment(0, a.Length - 1, a[0])];
    while |stack| != 0
      invariant Pending(stack, a[..]) && multiset(a[..]) == multiset(old(a[..]))
      invariant TotalPreorder(cmp) ==> Settled(cmp, stack, a[..])
      decreases Work(stack)
    {
      var g, rest := stack[|stack| - 1], stack[..|stack| - 1];
      assert stack == rest + [g];
      PendingAt(rest, g, a[..]);
      ghost var s := a[..];
      var i := Partition(a, cmp, g.lo, g.hi, g.value);
      PendingStep(rest, g, i, s, a[..]);
      WorkDrops(rest, g, i, a[..]);
      if TotalPreorder(cmp) {
        SplitBy(cmp, g, i, a[..]);
        SettledStep(cmp, rest, g, i, s, a[..]);
      }
      stack := rest;
      if i != g.lo && i - 1 != g.lo {
        stack := stack + [Segment(g.lo, i - 1, a[g.lo])];
      }
      if i != g.hi && i + 1 != g.hi {
        stack := stack + [Segment(i + 1, g.hi, a[i + 1])];
      }
      assert stack == rest + Left(g, i, a[..]) + Right(g, i, a[..]);
    }
    if TotalPreorder(cmp) {
      NothingPending(cmp, a[..]);
    }
  }

  lemma StartSorting<T>(cmp: Comparator<T>, s: seq<T>)
    ensures |s| < 2 ==> Sorted(cmp, s)
    ensures |s| >= 2 ==> var stack := [Segment(0, |s| - 1, s[0])]; Pending(stack, s) && Settled(cmp, stack, s)
  {
    if |s| >= 2 {
      var stack := [Segment(0, |s| - 1, s[0])];
      forall p, q | 0 <= p < q < |s|
        ensures Within(stack[0], p, q)
      {
      }
    }
  }

  lemma PendingAt<T>(rest: seq<Segment<T>>, g: Segment<T>, s: seq<T>)
    requires Pending(rest + [g], s)
    ensures SegmentOf(g, s)
  {
    assert (rest + [g])[|rest|] == g;
  }

  lemma NothingPending<T>(cmp: Comparator<T>, s: seq<T>)
    requires Settled(cmp, [], s)
    ensures Sorted(cmp, s)
  {
  }

  lemma SplitBy<T>(cmp: Comparator<T>, g: Segment<T>, i: nat, s: seq<T>)
    requires g.lo <= i <= g.hi < |s|
    requires forall p :: g.lo <= p < i ==> cmp(s[p], s[i]) <= 0
    requires forall p :: i < p <= g.hi ==> cmp(s[p], s[i]) > 0
    ensures Split(cmp, g, i, s)
  {
  }
}
