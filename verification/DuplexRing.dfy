/**
 * The duplex ring of the NTB benchmark: two nodes, one ring in each node's memory, and four ways
 * of placing the producer and consumer indices (in the local header, in the peer's header, or in
 * a private variable).  All four are meant to be the same pair of bounded queues.
 */
module DuplexRing {
  import opened RingIndex
  import opened Packets
  import ShmRing

  /** Which header holds the consumer index and which the producer index. */
  datatype Kind = LocalCusLocalPd | LocalCusRemotePd | RemoteCusLocalPd | RemoteCusRemotePd

  /** `num` elements of at most `size` bytes. */
  datatype Config = Config(num: nat, size: nat) {
    predicate Valid() { num > 0 }
  }

  /** An element: its bytes and the length stored behind them. */
  datatype Elem = Elem(bytes: Bytes, len: nat)

  /** A node: the header and elements in its memory, and its private indices. */
  datatype Node = Node(cus: nat, pd: nat, elems: seq<Elem>, localCus: nat, remotePd: nat)

  predicate TypedNode(c: Config, n: Node) {
    && c.Valid() && |n.elems| == c.num && n.cus < c.num && n.pd < c.num && n.localCus < c.num && n.remotePd < c.num
    && (forall i :: 0 <= i < |n.elems| ==> |n.elems[i].bytes| == c.size)
  }

  datatype Code = Ok | Retry | Bad       // 0, 1 and -1

  /** Copying the bytes leaves the rest of the element as it was. */
  function Store(e: Elem, item: Bytes): Elem
    requires |item| <= |e.bytes|
  {
    Elem(item + e.bytes[|item|..], |item|)
  }

  function Put(n: Node, i: nat, item: Bytes): Node
    requires i < |n.elems| && |item| <= |n.elems[i].bytes|
  {
    n.(elems := n.elems[i := Store(n.elems[i], item)])
  }

  datatype EnqResult = EnqResult(code: Code, me: Node, peer: Node)

  /** `ring_enqueue_1` to `ring_enqueue_4`: the caller `me` writes into the memory of `peer`. */
  function Enqueue(c: Config, kind: Kind, me: Node, peer: Node, item: Bytes): (r: EnqResult)
    requires TypedNode(c, me) && TypedNode(c, peer)
    ensures TypedNode(c, r.me) && TypedNode(c, r.peer)
  {
    if |item| == 0 || |item| > c.size then EnqResult(Bad, me, peer)
    else
      var pd := if kind.LocalCusLocalPd? || kind.RemoteCusLocalPd? then me.remotePd else me.pd;
      var cus := if kind.LocalCusLocalPd? || kind.LocalCusRemotePd? then peer.cus else me.cus;
      var next := Increment(pd, c.num);
      if next == cus then EnqResult(Retry, me, peer)
      else if kind.LocalCusLocalPd? || kind.RemoteCusLocalPd? then
        EnqResult(Ok, me.(remotePd := next), Put(peer, pd, item).(pd := next))
      else EnqResult(Ok, me.(pd := next), Put(peer, pd, item))
  }

  datatype DeqResult = DeqResult(code: Code, item: Bytes, me: Node, peer: Node)

  /** `ring_dequeue_1` to `ring_dequeue_4`: the caller `me` reads its own memory. */
  function Dequeue(c: Config, kind: Kind, me: Node, peer: Node): (r: DeqResult)
    requires TypedNode(c, me) && TypedNode(c, peer)
    ensures TypedNode(c, r.me) && TypedNode(c, r.peer)
  {
    var cus := if kind.LocalCusLocalPd? || kind.LocalCusRemotePd? then me.cus else me.localCus;
    var pd := if kind.LocalCusLocalPd? || kind.RemoteCusLocalPd? then me.pd else peer.pd;
    if cus == pd then DeqResult(Retry, [], me, peer)
    else
      var next, e := Increment(cus, c.num), me.elems[cus];
      if e.len == 0 || e.len > c.size then DeqResult(Bad, [], me, peer)
      else
        var me' := me.(elems := me.elems[cus := e.(len := 0)]);
        if kind.LocalCusLocalPd? || kind.LocalCusRemotePd?
        then DeqResult(Ok, e.bytes[..e.len], me'.(cus := next), peer)
        else DeqResult(Ok, e.bytes[..e.len], me'.(localCus := next), peer.(cus := next))
  }

  // ---------- one direction as a queue ----------

  /** The producer and consumer indices of the direction from `a` to `b`. */
  function ProducerIdx(kind: Kind, a: Node, b: Node): nat {
    if kind.LocalCusLocalPd? || kind.RemoteCusLocalPd? then a.remotePd else a.pd
  }

  function ConsumerIdx(kind: Kind, a: Node, b: Node): nat {
    if kind.LocalCusLocalPd? || kind.LocalCusRemotePd? then b.cus else b.localCus
  }

  /** Where an index is kept twice, the copies agree. */
  predicate Agree(kind: Kind, a: Node, b: Node) {
    && (kind.LocalCusLocalPd? || kind.RemoteCusLocalPd? ==> b.pd == a.remotePd)
    && (kind.RemoteCusLocalPd? || kind.RemoteCusRemotePd? ==> a.cus == b.localCus)
  }

  predicate Holds(e: Elem, item: Bytes) {
    0 < |item| == e.len <= |e.bytes| && e.bytes[..e.len] == item
  }

  predicate Held(num: nat, elems: seq<Elem>, p: nat, r: nat, q: seq<Bytes>) {
    && num > 0 && |elems| == num && p < num && r < num && |q| == ShmRing.Used(num, p, r)
    && forall i :: 0 <= i < |q| ==> Holds(elems[Slot(r + i, num)], q[i])
  }

  /** The direction from `a` to `b` holds exactly `q`. */
  predicate Carries(c: Config, kind: Kind, a: Node, b: Node, q: seq<Bytes>) {
    Agree(kind, a, b) && Held(c.num, b.elems, ProducerIdx(kind, a, b), ConsumerIdx(kind, a, b), q)
  }

  predicate Duplex(c: Config, kind: Kind, a: Node, b: Node, ab: seq<Bytes>, ba: seq<Bytes>) {
    TypedNode(c, a) && TypedNode(c, b) && Carries(c, kind, a, b, ab) && Carries(c, kind, b, a, ba)
  }

  lemma EnqueueHeld(num: nat, elems: seq<Elem>, p: nat, r: nat, q: seq<Bytes>, item: Bytes)
    requires Held(num, elems, p, r, q) && 0 < |item| <= |elems[p].bytes|
    ensures Increment(p, num) == r <==> |q| == num - 1
    ensures Increment(p, num) != r ==>
      Held(num, elems[p := Store(elems[p], item)], Increment(p, num), r, q + [item])
  {
    NextSlot(p, num);
    assert Slot(r + |q|, num) == p;
    forall k | r <= k < r + |q|
      ensures Slot(k, num) != p
    {
      SlotsWithinLap(k, r + |q|, num);
    }
  }

  lemma DequeueHeld(num: nat, elems: seq<Elem>, p: nat, r: nat, q: seq<Bytes>)
    requires Held(num, elems, p, r, q) && q != []
    ensures Holds(elems[r], q[0])
    ensures Held(num, elems[r := elems[r].(len := 0)], p, Increment(r, num), q[1..])
  {
    NextSlot(r, num);
    var zero := 0;
    assert Holds(elems[Slot(r + zero, num)], q[zero]);
    forall k | r < k < r + |q|
      ensures Slot(k, num) != r
    {
      SlotsWithinLap(r, k, num);
    }
    forall i | 0 <= i < |q[1..]|
      ensures Slot(Increment(r, num) + i, num) == Slot(r + 1 + i, num)
      ensures Holds(elems[Slot(r + (i + 1), num)], q[1..][i])
    {
      assert q[1..][i] == q[i + 1];
    }
  }

  // ---------- refinement ----------

  /** What a bounded queue answers. */
  function EnqueueCode(c: Config, q: seq<Bytes>, item: Bytes): Code
    requires c.Valid()
  {
    if |item| == 0 || |item| > c.size then Bad else if |q| >= c.num - 1 then Retry else Ok
  }

  lemma EnqueueRefines(c: Config, kind: Kind, a: Node, b: Node, ab: seq<Bytes>, ba: seq<Bytes>, item: Bytes)
    requires Duplex(c, kind, a, b, ab, ba)
    ensures var r := Enqueue(c, kind, a, b, item);
            && r.code == EnqueueCode(c, ab, item)
            && Duplex(c, kind, r.me, r.peer, if r.code.Ok? then ab + [item] else ab, ba)
  {
    hide Held;
    if 0 < |item| <= c.size {
      EnqueueHeld(c.num, b.elems, ProducerIdx(kind, a, b), ConsumerIdx(kind, a, b), ab, item);
      HeldLength(c.num, b.elems, ProducerIdx(kind, a, b), ConsumerIdx(kind, a, b), ab);
    }
  }

  lemma HeldLength(num: nat, elems: seq<Elem>, p: nat, r: nat, q: seq<Bytes>)
    requires Held(num, elems, p, r, q)
    ensures |q| <= num - 1 && (q == [] <==> p == r)
  {
  }

  lemma DequeueRefines(c: Config, kind: Kind, a: Node, b: Node, ab: seq<Bytes>, ba: seq<Bytes>)
    requires Duplex(c, kind, a, b, ab, ba)
    ensures var d := Dequeue(c, kind, b, a);
            && (if ab == [] then d.code == Retry && d.me == b && d.peer == a
                else d.code == Ok && d.item == ab[0])
            && Duplex(c, kind, d.peer, d.me, if ab == [] then ab else ab[1..], ba)
  {
    hide Held;
    HeldLength(c.num, b.elems, ProducerIdx(kind, a, b), ConsumerIdx(kind, a, b), ab);
    if ab != [] {
      DequeueHeld(c.num, b.elems, ProducerIdx(kind, a, b), ConsumerIdx(kind, a, b), ab);
    }
  }

  // ---------- identical answers ----------

  datatype Side = A | B

  datatype Call = Enq(side: Side, item: Bytes) | Deq(side: Side)

  datatype Answer = Answer(code: Code, item: Bytes)

  datatype Both = Both(a: Node, b: Node)

  function Do(c: Config, kind: Kind, s: Both, call: Call): (r: (Answer, Both))
    requires TypedNode(c, s.a) && TypedNode(c, s.b)
    ensures TypedNode(c, r.1.a) && TypedNode(c, r.1.b)
  {
    match call
    case Enq(A, item) => var r := Enqueue(c, kind, s.a, s.b, item); (Answer(r.code, []), Both(r.me, r.peer))
    case Enq(B, item) => var r := Enqueue(c, kind, s.b, s.a, item); (Answer(r.code, []), Both(r.peer, r.me))
    case Deq(A) => var r := Dequeue(c, kind, s.a, s.b); (Answer(r.code, r.item), Both(r.me, r.peer))
    case Deq(B) => var r := Dequeue(c, kind, s.b, s.a); (Answer(r.code, r.item), Both(r.peer, r.me))
  }

  function Answers(c: Config, kind: Kind, s: Both, calls: seq<Call>): seq<Answer>
    requires TypedNode(c, s.a) && TypedNode(c, s.b)
    decreases |calls|
  {
    if calls == [] then []
    else var (x, s') := Do(c, kind, s, calls[0]); [x] + Answers(c, kind, s', calls[1..])
  }

  /** The pair of bounded queues: elements on their way from A to B and from B to A. */
  datatype Queues = Queues(ab: seq<Bytes>, ba: seq<Bytes>)

  function Push(c: Config, q: seq<Bytes>, item: Bytes): seq<Bytes>
    requires c.Valid()
  {
    if EnqueueCode(c, q, item).Ok? then q + [item] else q
  }

  function Pop(q: seq<Bytes>): (Answer, seq<Bytes>) {
    if q == [] then (Answer(Retry, []), q) else (Answer(Ok, q[0]), q[1..])
  }

  function Ideal(c: Config, q: Queues, call: Call): (Answer, Queues)
    requires c.Valid()
  {
    match call
    case Enq(A, item) => (Answer(EnqueueCode(c, q.ab, item), []), q.(ab := Push(c, q.ab, item)))
    case Enq(B, item) => (Answer(EnqueueCode(c, q.ba, item), []), q.(ba := Push(c, q.ba, item)))
    case Deq(A) => var (x, ba) := Pop(q.ba); (x, q.(ba := ba))
    case Deq(B) => var (x, ab) := Pop(q.ab); (x, q.(ab := ab))
  }

  function IdealAnswers(c: Config, q: Queues, calls: seq<Call>): seq<Answer>
    requires c.Valid()
    decreases |calls|
  {
    if calls == [] then []
    else var (x, q') := Ideal(c, q, calls[0]); [x] + IdealAnswers(c, q', calls[1..])
  }

  lemma DoRefines(c: Config, kind: Kind, s: Both, q: Queues, call: Call)
    requires Duplex(c, kind, s.a, s.b, q.ab, q.ba)
    ensures var ((x, s'), (y, q')) := (Do(c, kind, s, call), Ideal(c, q, call));
            x == y && Duplex(c, kind, s'.a, s'.b, q'.ab, q'.ba)
  {
    hide Enqueue, Dequeue, Carries;
    match call
    case Enq(A, item) => EnqueueRefines(c, kind, s.a, s.b, q.ab, q.ba, item);
    case Enq(B, item) => EnqueueRefines(c, kind, s.b, s.a, q.ba, q.ab, item);
    case Deq(A) => DequeueRefines(c, kind, s.b, s.a, q.ba, q.ab); RetryHasNoItem(c, kind, s.a, s.b);
    case Deq(B) => DequeueRefines(c, kind, s.a, s.b, q.ab, q.ba); RetryHasNoItem(c, kind, s.b, s.a);
  }

  lemma RetryHasNoItem(c: Config, kind: Kind, me: Node, peer: Node)
    requires TypedNode(c, me) && TypedNode(c, peer)
    ensures Dequeue(c, kind, me, peer).code.Retry? ==> Dequeue(c, kind, me, peer).item == []
  {
  }

  lemma {:induction false} AnswersAreIdeal(c: Config, kind: Kind, s: Both, q: Queues, calls: seq<Call>)
    requires Duplex(c, kind, s.a, s.b, q.ab, q.ba)
    ensures Answers(c, kind, s, calls) == IdealAnswers(c, q, calls)
    decreases |calls|
  {
    if calls != [] {
      DoRefines(c, kind, s, q, calls[0]);
      AnswersAreIdeal(c, kind, Do(c, kind, s, calls[0]).1, Ideal(c, q, calls[0]).1, calls[1..]);
    }
  }

  predicate Fresh(c: Config, n: Node) {
    TypedNode(c, n) && n.cus == 0 && n.pd == 0 && n.localCus == 0 && n.remotePd == 0
  }

  /** All placements answer every sequence of calls as the pair of queues does, hence alike. */
  lemma PlacementsAreEquivalent(c: Config, k1: Kind, k2: Kind, s: Both, calls: seq<Call>)
    requires Fresh(c, s.a) && Fresh(c, s.b)
    ensures Answers(c, k1, s, calls) == IdealAnswers(c, Queues([], []), calls)
    ensures Answers(c, k1, s, calls) == Answers(c, k2, s, calls)
  {
    AnswersAreIdeal(c, k1, s, Queues([], []), calls);
    AnswersAreIdeal(c, k2, s, Queues([], []), calls);
  }

  lemma {:induction false} IdealDequeueNeverBad(c: Config, q: Queues, calls: seq<Call>)
    requires c.Valid()
    ensures var xs := IdealAnswers(c, q, calls);
            |xs| == |calls| && forall i :: 0 <= i < |calls| && calls[i].Deq? ==> xs[i].code != Bad
    decreases |calls|
  {
    if calls != [] {
      IdealDequeueNeverBad(c, Ideal(c, q, calls[0]).1, calls[1..]);
    }
  }

  /** In particular the check of the stored length never fails: no dequeue returns -1. */
  lemma LengthCheckNeverFails(c: Config, kind: Kind, s: Both, calls: seq<Call>)
    requires Fresh(c, s.a) && Fresh(c, s.b)
    ensures var xs := Answers(c, kind, s, calls);
            |xs| == |calls| && forall i :: 0 <= i < |calls| && calls[i].Deq? ==> xs[i].code != Bad
  {
    PlacementsAreEquivalent(c, kind, kind, s, calls);
    IdealDequeueNeverBad(c, Queues([], []), calls);
  }

  // ---------- the eight functions, updating shared memory in place ----------

  /** A ring in one node's memory: the header's two indices and the elements. */
  class Memory {
    var cus: nat
    var pd: nat
    const elems: array<Elem>

    constructor (c: Config, blank: Elem)
      ensures cus == 0 && pd == 0 && elems.Length == c.num && fresh(elems)
      ensures forall i :: 0 <= i < elems.Length ==> elems[i] == blank
    {
      cus, pd := 0, 0;
      elems := new Elem[c.num](_ => blank);
    }
  }

  /** One node's end of the link: its own ring, the peer's ring through the bridge, private indices. */
  class Link {
    const c: Config
    const local: Memory
    const remote: Memory
    var localCus: nat
    var remotePd: nat

    constructor (c: Config, local: Memory, remote: Memory)
      ensures this.c == c && this.local == local && this.remote == remote && localCus == 0 && remotePd == 0
    {
      this.c, this.local, this.remote, localCus, remotePd := c, local, remote, 0, 0;
    }

    ghost function View(): Node
      reads this, local, local.elems
    {
      Node(local.cus, local.pd, local.elems[..], localCus, remotePd)
    }

    /** The two ends see the same two rings, crosswise. */
    ghost predicate Wired(peer: Link)
      reads this, local, local.elems, peer, peer.local, peer.local.elems
    {
      && peer != this && c == peer.c && local == peer.remote && remote == peer.local
      && local != remote && local.elems != remote.elems
      && TypedNode(c, View()) && TypedNode(c, peer.View())
    }

    method Write(i: nat, item: Bytes)
      requires i < remote.elems.Length && |item| <= |remote.elems[i].bytes|
      modifies remote.elems
      ensures remote.elems[..] == old(remote.elems[..])[i := Store(old(remote.elems[i]), item)]
    {
      remote.elems[i] := Store(remote.elems[i], item);
    }

    method Enqueue1(item: Bytes, ghost peer: Link) returns (code: Code)
      requires Wired(peer)
      modifies this, remote, remote.elems
      ensures Wired(peer)
      ensures EnqResult(code, View(), peer.View()) == old(Enqueue(c, LocalCusLocalPd, View(), peer.View(), item))
    {
      if |item| == 0 || |item| > c.size { return Bad; }
      var next := Increment(remotePd, c.num);
      if next == remote.cus { return Retry; }
      Write(remotePd, item);
      remotePd := next;
      remote.pd := next;
      code := Ok;
    }

    method Enqueue2(item: Bytes, ghost peer: Link) returns (code: Code)
      requires Wired(peer)
      modifies local, remote.elems
      ensures Wired(peer)
      ensures EnqResult(code, View(), peer.View()) == old(Enqueue(c, LocalCusRemotePd, View(), peer.View(), item))
    {
      if |item| == 0 || |item| > c.size { return Bad; }
      var pd := local.pd;
      var next := Increment(pd, c.num);
      if next == remote.cus { return Retry; }
      Write(pd, item);
      local.pd := next;
      code := Ok;
    }

    method Enqueue3(item: Bytes, ghost peer: Link) returns (code: Code)
      requires Wired(peer)
      modifies this, remote, remote.elems
      ensures Wired(peer)
      ensures EnqResult(code, View(), peer.View()) == old(Enqueue(c, RemoteCusLocalPd, View(), peer.View(), item))
    {
      if |item| == 0 || |item| > c.size { return Bad; }
      var next := Increment(remotePd, c.num);
      if next == local.cus { return Retry; }
      Write(remotePd, item);
      remotePd := next;
      remote.pd := next;
      code := Ok;
    }

    method Enqueue4(item: Bytes, ghost peer: Link) returns (code: Code)
      requires Wired(peer)
      modifies local, remote.elems
      ensures Wired(peer)
      ensures EnqResult(code, View(), peer.View()) == old(Enqueue(c, RemoteCusRemotePd, View(), peer.View(), item))
    {
      if |item| == 0 || |item| > c.size { return Bad; }
      var pd := local.pd;
      var next := Increment(pd, c.num);
      if next == local.cus { return Retry; }
      Write(pd, item);
      local.pd := next;
      code := Ok;
    }

    /** Copy the element out and clear its length, or refuse it. */
    method Take(i: nat) returns (code: Code, item: Bytes)
      requires i < local.elems.Length && |local.elems[i].bytes| == c.size
      modifies local.elems
      ensures var e := old(local.elems[i]);
              if e.len == 0 || e.len > c.size then code == Bad && item == [] && local.elems[..] == old(local.elems[..])
              else code == Ok && item == e.bytes[..e.len] && local.elems[..] == old(local.elems[..])[i := e.(len := 0)]
    {
      var e := local.elems[i];
      if e.len == 0 || e.len > c.size { return Bad, []; }
      code, item := Ok, e.bytes[..e.len];
      local.elems[i] := e.(len := 0);
    }

    method Dequeue1(ghost peer: Link) returns (code: Code, item: Bytes)
      requires Wired(peer)
      modifies local, local.elems
      ensures Wired(peer)
      ensures DeqResult(code, item, View(), peer.View()) == old(Dequeue(c, LocalCusLocalPd, View(), peer.View()))
    {
      var cus, pd := local.cus, local.pd;
      if cus == pd { return Retry, []; }
      code, item := Take(cus);
      if code.Ok? {
        local.cus := Increment(cus, c.num);
      }
    }

    method Dequeue2(ghost peer: Link) returns (code: Code, item: Bytes)
      requires Wired(peer)
      modifies local, local.elems
      ensures Wired(peer)
      ensures DeqResult(code, item, View(), peer.View()) == old(Dequeue(c, LocalCusRemotePd, View(), peer.View()))
    {
      if local.cus == remote.pd { return Retry, []; }
      code, item := Take(local.cus);
      if code.Ok? {
        local.cus := Increment(local.cus, c.num);
      }
    }

    method Dequeue3(ghost peer: Link) returns (code: Code, item: Bytes)
      requires Wired(peer)
      modifies this, remote, local.elems
      ensures Wired(peer)
      ensures DeqResult(code, item, View(), peer.View()) == old(Dequeue(c, RemoteCusLocalPd, View(), peer.View()))
    {
      if localCus == local.pd { return Retry, []; }
      code, item := Take(localCus);
      if code.Ok? {
        localCus := Increment(localCus, c.num);
        remote.cus := localCus;
      }
    }

    method Dequeue4(ghost peer: Link) returns (code: Code, item: Bytes)
      requires Wired(peer)
      modifies this, remote, local.elems
      ensures Wired(peer)
      ensures DeqResult(code, item, View(), peer.View()) == old(Dequeue(c, RemoteCusRemotePd, View(), peer.View()))
    {
      if localCus == remote.pd { return Retry, []; }
      code, item := Take(localCus);
      if code.Ok? {
        localCus := Increment(localCus, c.num);
        remote.cus := localCus;
      }
    }
  }
}
