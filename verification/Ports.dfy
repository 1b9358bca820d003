/**
 * The monitor's port numbers: a status per port and a queue of free ports.  A port that was
 * claimed by number stays in the queue and is skipped when it comes up.
 *
 * The queue is an intrusive doubly linked list, whose links live in the ports themselves.  It is
 * modelled twice: as the sequence of its ports, and link by link.
 */
module Ports {
  import opened Options

  // ---------- the queue as a sequence ----------

  datatype State = State(used: seq<bool>, queue: seq<nat>)

  predicate Typed(s: State) {
    forall i :: 0 <= i < |s.queue| ==> s.queue[i] < |s.used|
  }

  function Fresh(n: nat): (s: State)
    ensures Typed(s)
  {
    State(seq(n, _ => false), seq(n, i => i))
  }

  predicate Used(s: State, p: nat) { p < |s.used| && s.used[p] }

  /** `allocate_port`: the first port in the queue that is not in use; `None` when there is none. */
  function Allocate(s: State): (r: (Option<nat>, State))
    requires Typed(s)
    ensures Typed(r.1) && |r.1.used| == |s.used|
    decreases |s.queue|
  {
    if s.queue == [] then (None, s)
    else
      var p := s.queue[0];
      if s.used[p] then Allocate(s.(queue := s.queue[1..]))
      else (Some(p), State(s.used[p := true], s.queue[1..]))
  }

  /** `allocate_specified_port`: leaves the queue alone. */
  function Claim(s: State, p: int): (r: (bool, State))
    requires Typed(s)
    ensures Typed(r.1) && |r.1.used| == |s.used|
  {
    if 0 <= p < |s.used| && !s.used[p] then (true, s.(used := s.used[p := true])) else (false, s)
  }

  /** A port handed out was not in use and now is; no other port changes. */
  lemma {:induction false} AllocateIsFresh(s: State)
    requires Typed(s)
    ensures var (p, s') := Allocate(s);
            && (p.Some? ==> p.value < |s.used| && !s.used[p.value] && s'.used == s.used[p.value := true])
            && (p.None? ==> s'.used == s.used)
    decreases |s.queue|
  {
    if s.queue != [] && s.used[s.queue[0]] {
      AllocateIsFresh(s.(queue := s.queue[1..]));
    }
  }

  /** Every port not in use waits in the queue. */
  predicate Complete(s: State) {
    forall p :: 0 <= p < |s.used| && !s.used[p] ==> p in s.queue
  }

  /** Allocation fails only when every port is in use, and loses no port. */
  lemma {:induction false} AllocateFindsFree(s: State)
    requires Typed(s) && Complete(s)
    ensures Complete(Allocate(s).1)
    ensures Allocate(s).0.None? <==> forall p :: 0 <= p < |s.used| ==> s.used[p]
    decreases |s.queue|
  {
    if s.queue != [] {
      var s1 := s.(queue := s.queue[1..]);
      assert s.queue == [s.queue[0]] + s.queue[1..];
      if s.used[s.queue[0]] {
        assert Complete(s1);
        AllocateFindsFree(s1);
      }
    }
  }

  /** A claim succeeds if and only if the port exists and is free, and loses no port. */
  lemma ClaimKeepsComplete(s: State, p: int)
    requires Typed(s) && Complete(s)
    ensures Complete(Claim(s, p).1)
    ensures Claim(s, p).0 <==> 0 <= p < |s.used| && !s.used[p]
  {
  }

  // ---------- the queue link by link ----------

  const NIL: int := -1

  /** As the target of a back link or of `last`: the head's own link to the first port. */
  const HEAD: int := -1

  /** `last` and `prev` point at links: the link of a port, named by the port, or the head's. */
  datatype Links = Links(first: int, last: int, next: seq<int>, prev: seq<int>)

  predicate TypedLinks(l: Links) {
    && |l.prev| == |l.next| && NIL <= l.first < |l.next| && HEAD <= l.last < |l.next|
    && (forall i :: 0 <= i < |l.next| ==> NIL <= l.next[i] < |l.next| && HEAD <= l.prev[i] < |l.next|)
  }

  /** `TAILQ_INSERT_TAIL`. */
  function InsertTail(l: Links, p: nat): (l': Links)
    requires TypedLinks(l) && p < |l.next|
    ensures TypedLinks(l') && |l'.next| == |l.next|
  {
    var cut := l.(next := l.next[p := NIL], prev := l.prev[p := l.last]);
    if l.last == HEAD then cut.(first := p, last := p) else cut.(next := cut.next[l.last := p], last := p)
  }

  /** `TAILQ_REMOVE`. */
  function Unlink(l: Links, p: nat): (l': Links)
    requires TypedLinks(l) && p < |l.next|
    ensures TypedLinks(l') && |l'.next| == |l.next|
  {
    var nx, pv := l.next[p], l.prev[p];
    var back := if nx != NIL then l.(prev := l.prev[nx := pv]) else l.(last := pv);
    if pv == HEAD then back.(first := nx) else back.(next := back.next[pv := nx])
  }

  /** The list is well formed and holds these ports in this order. */
  predicate Listed(l: Links, q: seq<nat>) {
    && TypedLinks(l) && (forall i :: 0 <= i < |q| ==> q[i] < |l.next|)
    && (forall i, j :: 0 <= i < j < |q| ==> q[i] != q[j])
    && l.first == (if q == [] then NIL else q[0])
    && l.last == (if q == [] then HEAD else q[|q| - 1])
    && (forall i :: 0 <= i < |q| ==> LinkedAt(l, q, i))
  }

  /** The port at place `i` is linked to its neighbours in the queue. */
  predicate LinkedAt(l: Links, q: seq<nat>, i: nat)
    requires TypedLinks(l) && i < |q| && q[i] < |l.next|
  {
    && l.next[q[i]] == (if i + 1 < |q| then q[i + 1] else NIL)
    && l.prev[q[i]] == (if i > 0 then q[i - 1] else HEAD)
  }

  lemma InsertKeepsList(l: Links, q: seq<nat>, p: nat)
    requires Listed(l, q) && p < |l.next| && p !in q
    ensures Listed(InsertTail(l, p), q + [p])
  {
    var l', r := InsertTail(l, p), q + [p];
    forall i | 0 <= i < |q|
      ensures LinkedAt(l', r, i)
    {
      assert LinkedAt(l, q, i);
    }
  }

  lemma FirstLinks(l: Links, q: seq<nat>)
    requires Listed(l, q) && q != []
    ensures l.prev[q[0]] == HEAD && l.next[q[0]] == if |q| > 1 then q[1] else NIL
  {
    assert LinkedAt(l, q, 0);
  }

  lemma UnlinkKeepsList(l: Links, q: seq<nat>)
    requires Listed(l, q) && q != []
    ensures Listed(Unlink(l, q[0]), q[1..])
  {
    var l', r := Unlink(l, q[0]), q[1..];
    FirstLinks(l, q);
    forall i | 0 <= i < |r|
      ensures LinkedAt(l', r, i)
    {
      assert LinkedAt(l, q, i + 1);
    }
    if |q| == 1 {
      assert l'.last == HEAD;
    }
  }

  /** The port that `k` steps from the head lead to. */
  function Nth(l: Links, k: nat): (p: int)
    requires TypedLinks(l)
    ensures NIL <= p < |l.next|
  {
    if k == 0 then l.first else if Nth(l, k - 1) == NIL then NIL else l.next[Nth(l, k - 1)]
  }

  ghost predicate Reaches(l: Links, p: nat)
    requires TypedLinks(l)
  {
    exists k: nat :: Nth(l, k) == p
  }

  lemma {:induction false} ListedNth(l: Links, q: seq<nat>, k: nat)
    requires Listed(l, q)
    ensures Nth(l, k) == if k < |q| then q[k] else NIL
  {
    if k > 0 {
      ListedNth(l, q, k - 1);
      if k <= |q| {
        assert LinkedAt(l, q, k - 1);
      }
    }
  }

  lemma ListedReaches(l: Links, q: seq<nat>, p: nat)
    requires Listed(l, q)
    ensures Reaches(l, p) <==> p in q
  {
    if Reaches(l, p) {
      var k: nat :| Nth(l, k) == p;
      ListedNth(l, q, k);
    }
    if p in q {
      var k :| 0 <= k < |q| && q[k] == p;
      ListedNth(l, q, k);
    }
  }

  /**
   * Inserting a port that is still queued cuts the list behind it; if it is the last one, the
   * port is linked to itself instead.
   */
  lemma {:induction false} InsertQueuedNth(l: Links, q: seq<nat>, i: nat, k: nat)
    requires Listed(l, q) && i < |q|
    ensures Nth(InsertTail(l, q[i]), k) == if k <= i then q[k] else if i + 1 == |q| then q[i] else NIL
  {
    var l' := InsertTail(l, q[i]);
    assert l'.next == if i + 1 == |q| then l.next[q[i] := q[i]] else l.next[q[i] := NIL][l.last := q[i]];
    if k > 0 {
      InsertQueuedNth(l, q, i, k - 1);
      if k <= i {
        assert LinkedAt(l, q, k - 1);
        assert q[k - 1] != q[i] && q[k - 1] != q[|q| - 1];
      }
    }
  }

  lemma InsertQueuedReaches(l: Links, q: seq<nat>, i: nat, p: nat)
    requires Listed(l, q) && i < |q|
    ensures Reaches(InsertTail(l, q[i]), p) <==> p in q[..i + 1]
  {
    var l' := InsertTail(l, q[i]);
    if Reaches(l', p) {
      var k: nat :| Nth(l', k) == p;
      InsertQueuedNth(l, q, i, k);
      if k <= i {
        assert q[..i + 1][k] == p;
      } else {
        assert q[..i + 1][i] == p;
      }
    }
    if p in q[..i + 1] {
      var k :| 0 <= k < i + 1 && q[..i + 1][k] == p;
      InsertQueuedNth(l, q, i, k);
    }
  }

  /** Inserting keeps a well-formed list if and only if the port is not in it. */
  lemma WhenInsertKeepsList(l: Links, q: seq<nat>, p: nat)
    requires Listed(l, q) && p < |l.next|
    ensures (exists q' :: Listed(InsertTail(l, p), q')) <==> p !in q
  {
    var l' := InsertTail(l, p);
    if p !in q {
      InsertKeepsList(l, q, p);
    } else {
      var i :| 0 <= i < |q| && q[i] == p;
      forall q' | Listed(l', q')
        ensures false
      {
        QueuedInsertIsNotListed(l, q, i, q');
      }
    }
  }

  lemma QueuedInsertIsNotListed(l: Links, q: seq<nat>, i: nat, q': seq<nat>)
    requires Listed(l, q) && i < |q|
    ensures !Listed(InsertTail(l, q[i]), q')
  {
    var l' := InsertTail(l, q[i]);
    assert l'.prev[q[i]] == q[|q| - 1];
    if Listed(l', q') {
      ListedNth(l', q', i);
      InsertQueuedNth(l, q, i, i);
      FirstLinks(l', q');
      if i + 1 == |q| {
        ListedNth(l', q', |q'|);
        InsertQueuedNth(l, q, i, |q'|);
      } else if i > 0 {
        assert LinkedAt(l', q', i);
        ListedNth(l', q', i - 1);
        InsertQueuedNth(l, q, i, i - 1);
      }
    }
  }

  // ---------- freeing a port ----------

  datatype Table = Table(used: seq<bool>, links: Links)

  predicate TypedTable(t: Table) { TypedLinks(t.links) && |t.links.next| == |t.used| }

  /** `free_port`. */
  function Release(t: Table, p: int): (t': Table)
    requires TypedTable(t)
    ensures TypedTable(t') && |t'.used| == |t.used|
  {
    if 0 <= p < |t.used| && t.used[p] then Table(t.used[p := false], InsertTail(t.links, p)) else t
  }

  /** Every free port can be found from the head. */
  ghost predicate AllFound(t: Table)
    requires TypedTable(t)
  {
    forall p :: 0 <= p < |t.used| && !t.used[p] ==> Reaches(t.links, p)
  }

  lemma CompleteIsAllFound(t: Table, q: seq<nat>)
    requires TypedTable(t) && Listed(t.links, q)
    ensures AllFound(t) <==> Complete(State(t.used, q))
  {
    forall p | 0 <= p < |t.used|
      ensures Reaches(t.links, p) <==> p in q
    {
      ListedReaches(t.links, q, p);
    }
  }

  /** No free port comes behind `p` in the queue. */
  predicate NothingBehind(used: seq<bool>, q: seq<nat>, p: nat)
    requires forall i :: 0 <= i < |q| ==> q[i] < |used|
  {
    forall i, j :: 0 <= i < j < |q| && q[i] == p ==> used[q[j]]
  }

  /**
   * Freeing a port keeps all free ports within reach if and only if the port was not still queued,
   * as a port claimed by number may be, or no free port was queued behind it.
   */
  lemma WhenFreeKeepsAll(t: Table, q: seq<nat>, p: nat)
    requires TypedTable(t) && Listed(t.links, q) && AllFound(t) && p < |t.used| && t.used[p]
    ensures AllFound(Release(t, p)) <==> p !in q || NothingBehind(t.used, q, p)
  {
    hide Listed, TypedLinks, InsertTail, Reaches;
    ListedBounds(t.links, q);
    if p !in q {
      InsertKeepsList(t.links, q, p);
      CompleteIsAllFound(t, q);
      CompleteIsAllFound(Release(t, p), q + [p]);
      assert p in q + [p];
    } else {
      var i :| 0 <= i < |q| && q[i] == p;
      FreeQueued(t, q, i);
    }
  }

  lemma ListedBounds(l: Links, q: seq<nat>)
    requires Listed(l, q)
    ensures TypedLinks(l) && forall i :: 0 <= i < |q| ==> q[i] < |l.next|
    ensures forall i, j :: 0 <= i < j < |q| ==> q[i] != q[j]
  {
  }

  lemma FreeQueued(t: Table, q: seq<nat>, i: nat)
    requires TypedTable(t) && Listed(t.links, q) && AllFound(t) && i < |q| && q[i] < |t.used| && t.used[q[i]]
    requires forall j :: 0 <= j < |q| ==> q[j] < |t.used|
    ensures AllFound(Release(t, q[i])) <==> NothingBehind(t.used, q, q[i])
  {
    hide Listed, TypedLinks, InsertTail, Reaches;
    ListedBounds(t.links, q);
    var t' := Release(t, q[i]);
    forall p: nat | p < |t.used|
      ensures (Reaches(t'.links, p) <==> p in q[..i + 1]) && (Reaches(t.links, p) <==> p in q)
    {
      InsertQueuedReaches(t.links, q, i, p);
      ListedReaches(t.links, q, p);
    }
    if AllFound(t') {
      forall j | i < j < |q|
        ensures t.used[q[j]]
      {
        assert q[j] !in q[..i + 1];
      }
    } else {
      var p :| 0 <= p < |t.used| && !t'.used[p] && !Reaches(t'.links, p);
      assert q == q[..i + 1] + q[i + 1..];
      assert p in q[i + 1..];
      var j :| 0 <= j < |q| - i - 1 && q[i + 1..][j] == p;
      assert q[i + 1 + j] == p;
    }
  }

  function FreshLinks(n: nat): Links
    requires n > 0
  {
    Links(0, n - 1, seq(n, i => if i + 1 < n then i + 1 else NIL), seq(n, i => i - 1))
  }

  lemma FreshListed(n: nat)
    requires n > 0
    ensures Listed(FreshLinks(n), Fresh(n).queue)
  {
    var l, q := FreshLinks(n), Fresh(n).queue;
    forall i | 0 <= i < n
      ensures LinkedAt(l, q, i)
    {
      assert q[i] == i;
    }
  }

  /** A port claimed by number and freed again, in a fresh table: the free ports behind it are lost. */
  lemma ClaimThenFreeLosesPorts(n: nat, p: nat, lost: nat)
    requires p < lost < n
    ensures var t := Table(Claim(Fresh(n), p).1.used, FreshLinks(n));
            && TypedTable(t) && Listed(t.links, Fresh(n).queue) && AllFound(t)
            && !Release(t, p).used[lost] && !Reaches(Release(t, p).links, lost)
  {
    hide Reaches, Listed, TypedLinks, InsertTail;
    var t, q := Table(Claim(Fresh(n), p).1.used, FreshLinks(n)), Fresh(n).queue;
    FreshListed(n);
    ListedBounds(t.links, q);
    forall x | 0 <= x < n
      ensures x in q
    {
      assert q[x] == x;
    }
    CompleteIsAllFound(t, q);
    InsertQueuedReaches(t.links, q, p, lost);
  }

  // ---------- when an allocation ends ----------

  /** What `allocate_port` has come to: the port it returns, `None` at a null pointer, or another turn. */
  datatype Turned = Back(port: Option<nat>, t: Table) | Again(t: Table)

  /** At most `k` turns of the loop of `allocate_port`. */
  function Turns(t: Table, k: nat): (r: Turned)
    requires TypedTable(t)
    ensures TypedTable(r.t)
    decreases k
  {
    if k == 0 then Again(t)
    else if t.links.first == NIL then Back(None, t)
    else
      var p := t.links.first;
      var links := Unlink(t.links, p);
      if t.used[p] then Turns(t.(links := links), k - 1) else Back(Some(p), Table(t.used[p := true], links))
  }

  ghost predicate Ends(t: Table)
    requires TypedTable(t)
  {
    exists k: nat :: Turns(t, k).Back?
  }

  /** A turn that skips a port in use neither starts nor stops an endless loop. */
  lemma TurnKeepsEnds(t: Table)
    requires TypedTable(t) && t.links.first != NIL && t.used[t.links.first]
    ensures Ends(t) <==> Ends(t.(links := Unlink(t.links, t.links.first)))
  {
    var t' := t.(links := Unlink(t.links, t.links.first));
    if Ends(t) {
      var k: nat :| Turns(t, k).Back?;
      assert Turns(t', k - 1).Back?;
    }
    if Ends(t') {
      var k: nat :| Turns(t', k).Back?;
      assert Turns(t, k + 1).Back?;
    }
  }

  lemma OneTurn(t: Table)
    requires TypedTable(t) && (t.links.first == NIL || !t.used[t.links.first])
    ensures Ends(t)
  {
    assert Turns(t, 1).Back?;
  }

  /** On a well-formed queue the loop ends and finds what the sequence view says. */
  lemma {:induction false} AllocateRefines(t: Table, q: seq<nat>)
    requires TypedTable(t) && Listed(t.links, q) && Typed(State(t.used, q))
    ensures var r, (p, s) := Turns(t, |q| + 1), Allocate(State(t.used, q));
            r.Back? && r.port == p && r.t.used == s.used && Listed(r.t.links, s.queue)
    decreases |q|
  {
    hide Unlink, LinkedAt;
    if q != [] {
      UnlinkKeepsList(t.links, q);
      if t.used[q[0]] {
        AllocateRefines(t.(links := Unlink(t.links, q[0])), q[1..]);
      }
    }
  }

  /**
   * What is left of the queue behind the head after a port in it was inserted again: linked up to
   * that port, which ends the list or is linked to itself.
   */
  predicate Strand(l: Links, q: seq<nat>) {
    && TypedLinks(l) && q != [] && (forall i :: 0 <= i < |q| ==> q[i] < |l.next|)
    && (forall i, j :: 0 <= i < j < |q| ==> q[i] != q[j])
    && l.first == q[0] && (forall i :: 0 <= i < |q| - 1 ==> LinkedAt(l, q, i))
    && (l.next[q[|q| - 1]] == NIL || l.next[q[|q| - 1]] == q[|q| - 1])
    && (|q| == 1 && l.next[q[0]] == q[0] ==> l.prev[q[0]] == HEAD || l.prev[q[0]] == q[0])
  }

  /** Its last port can never be unlinked: it follows itself, or is first and its back link is not the head's. */
  predicate Tied(l: Links, q: seq<nat>)
    requires Strand(l, q)
  {
    l.next[q[|q| - 1]] == q[|q| - 1] || (|q| == 1 && l.prev[q[0]] != HEAD)
  }

  lemma InsertQueuedMakesStrand(l: Links, q: seq<nat>, i: nat)
    requires Listed(l, q) && i < |q|
    ensures var l' := InsertTail(l, q[i]);
            Strand(l', q[..i + 1]) && (Tied(l', q[..i + 1]) <==> i == 0 || i + 1 == |q|)
  {
    var l', r := InsertTail(l, q[i]), q[..i + 1];
    forall j | 0 <= j < |r| - 1
      ensures LinkedAt(l', r, j)
    {
      assert LinkedAt(l, q, j);
    }
    assert LinkedAt(l, q, i);
  }

  lemma StrandShrinks(l: Links, q: seq<nat>)
    requires Strand(l, q) && |q| > 1
    ensures Strand(Unlink(l, q[0]), q[1..]) && (Tied(Unlink(l, q[0]), q[1..]) <==> Tied(l, q))
  {
    var l', r := Unlink(l, q[0]), q[1..];
    assert LinkedAt(l, q, 0);
    forall i | 0 <= i < |r| - 1
      ensures LinkedAt(l', r, i)
    {
      assert LinkedAt(l, q, i + 1);
    }
  }

  lemma TiedStays(l: Links, p: nat)
    requires Strand(l, [p]) && Tied(l, [p])
    ensures Strand(Unlink(l, p), [p]) && Tied(Unlink(l, p), [p])
  {
  }

  lemma {:induction false} TiedSpins(t: Table, p: nat, k: nat)
    requires TypedTable(t) && Strand(t.links, [p]) && Tied(t.links, [p]) && t.used[p]
    ensures Turns(t, k).Again?
    decreases k
  {
    if k > 0 {
      TiedStays(t.links, p);
      TiedSpins(t.(links := Unlink(t.links, p)), p, k - 1);
    }
  }

  lemma NeverEnds(t: Table, q: seq<nat>)
    requires TypedTable(t) && Strand(t.links, q) && Tied(t.links, q) && |q| == 1 && t.used[q[0]]
    ensures !Ends(t)
  {
    assert q == [q[0]];
    forall k: nat
      ensures Turns(t, k).Again?
    {
      TiedSpins(t, q[0], k);
    }
  }

  lemma SomeFreeBehind(used: seq<bool>, q: seq<nat>)
    requires q != [] && (forall i :: 0 <= i < |q| ==> q[i] < |used|) && used[q[0]]
    ensures (exists i :: 0 <= i < |q[1..]| && !used[q[1..][i]]) <==> exists i :: 0 <= i < |q| && !used[q[i]]
  {
    if i :| 0 <= i < |q| && !used[q[i]] {
      assert q[1..][i - 1] == q[i];
    }
    if i :| 0 <= i < |q[1..]| && !used[q[1..][i]] {
      assert q[i + 1] == q[1..][i];
    }
  }

  /** On such a queue the loop ends if and only if a port in it is free, or its last port can be unlinked. */
  lemma {:induction false} WhenStrandEnds(t: Table, q: seq<nat>)
    requires TypedTable(t) && Strand(t.links, q)
    ensures Ends(t) <==> !Tied(t.links, q) || exists i :: 0 <= i < |q| && !t.used[q[i]]
    decreases |q|
  {
    hide Ends, Turns;
    var t' := t.(links := Unlink(t.links, q[0]));
    if !t.used[q[0]] {
      OneTurn(t);
    } else if |q| > 1 {
      StrandShrinks(t.links, q);
      TurnKeepsEnds(t);
      WhenStrandEnds(t', q[1..]);
      SomeFreeBehind(t.used, q);
    } else if Tied(t.links, q) {
      NeverEnds(t, q);
    } else {
      TurnKeepsEnds(t);
      OneTurn(t');
    }
  }

  /**
   * After the port at place `i` was freed while still queued, and whatever ports were claimed by
   * number since: an allocation ends if and only if one of the ports up to that place is free, or
   * the place is neither the first nor the last.
   */
  lemma WhenAllocateEnds(t: Table, q: seq<nat>, i: nat, used: seq<bool>)
    requires TypedTable(t) && Listed(t.links, q) && i < |q| && q[i] < |t.used| && t.used[q[i]]
    requires |used| == |t.used| && forall j :: 0 <= j < |q| ==> q[j] < |used|
    ensures Ends(Table(used, Release(t, q[i]).links)) <==>
            0 < i < |q| - 1 || exists j :: 0 <= j <= i && !used[q[j]]
  {
    hide Ends, Listed;
    var t', r := Table(used, Release(t, q[i]).links), q[..i + 1];
    InsertQueuedMakesStrand(t.links, q, i);
    WhenStrandEnds(t', r);
    if j :| 0 <= j <= i && !used[q[j]] {
      assert r[j] == q[j];
    }
  }

  lemma NothingListed(l: Links)
    requires TypedLinks(l) && l.first == NIL && l.last == HEAD
    ensures Listed(l, [])
  {
  }

  // ---------- the table as the monitor keeps it ----------

  class PortContext {
    const used: array<bool>
    const next: array<int>
    const prev: array<int>
    var first: int
    var last: int

    ghost function View(): Table
      reads this, used, next, prev
    {
      Table(used[..], Links(first, last, next[..], prev[..]))
    }

    ghost predicate Valid()
      reads this, used, next, prev
    {
      next != prev && TypedTable(View())
    }

    constructor (maxPort: nat)
      requires maxPort > 0
      ensures Valid() && fresh(used) && fresh(next) && fresh(prev)
      ensures View().used == Fresh(maxPort).used && Listed(View().links, Fresh(maxPort).queue)
    {
      used := new bool[maxPort](_ => false);
      next := new int[maxPort](_ => NIL);
      prev := new int[maxPort](_ => HEAD);
      first, last := NIL, HEAD;
      new;
      hide Listed, InsertTail;
      ghost var q := [];
      NothingListed(View().links);
      for i := 0 to maxPort
        invariant Valid() && used.Length == maxPort && View().used == Fresh(maxPort).used
        invariant |q| == i && (forall k :: 0 <= k < i ==> q[k] == k) && Listed(View().links, q)
      {
        InsertKeepsList(View().links, q, i);
        Insert(i);
        q := q + [i];
      }
      assert q == Fresh(maxPort).queue;
    }

    method Insert(p: nat)
      requires Valid() && p < used.Length
      modifies this, next, prev
      ensures Valid() && View().used == old(View().used) && View().links == InsertTail(old(View().links), p)
    {
      next[p] := NIL;
      prev[p] := last;
      if last == HEAD {
        first := p;
      } else {
        next[last] := p;
      }
      last := p;
    }

    method RemovePort(p: nat)
      requires Valid() && p < used.Length
      modifies this, next, prev
      ensures Valid() && View().used == old(View().used) && View().links == Unlink(old(View().links), p)
    {
      if next[p] != NIL {
        prev[next[p]] := prev[p];
      } else {
        last := prev[p];
      }
      if prev[p] == HEAD {
        first := next[p];
      } else {
        next[prev[p]] := next[p];
      }
    }

    /** Where the source would follow a null pointer, `None`; `k` bounds the turns if the loop ends at all. */
    method AllocatePort(ghost k: nat) returns (port: Option<nat>)
      requires Valid() && Turns(View(), k).Back?
      modifies this, used, next, prev
      ensures Valid() && Back(port, View()) == old(Turns(View(), k))
    {
      hide Unlink;
      ghost var left := k;
      while first != NIL
        invariant Valid() && Turns(View(), left) == old(Turns(View(), k))
        decreases left
      {
        var p := first;
        RemovePort(p);
        if !used[p] {
          used[p] := true;
          return Some(p);
        }
        left := left - 1;
      }
      port := None;
    }

    method AllocateSpecifiedPort(portid: int) returns (ok: bool)
      requires Valid()
      modifies used
      ensures Valid() && View().links == old(View().links)
      ensures forall q :: Typed(State(old(used[..]), q)) ==>
                (ok, State(used[..], q)) == Claim(State(old(used[..]), q), portid)
    {
      if portid < 0 || portid >= used.Length || used[portid] {
        return false;
      }
      used[portid] := true;
      ok := true;
    }

    method FreePort(portid: int)
      requires Valid()
      modifies this, used, next, prev
      ensures Valid() && View() == Release(old(View()), portid)
    {
      if portid < 0 || portid >= used.Length || !used[portid] {
        return;
      }
      used[portid] := false;
      Insert(portid);
    }
  }
}
