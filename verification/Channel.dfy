/**
 * One direction of the shared-memory path between an application and its proxy: packets live in
 * a block pool and an index ring carries block numbers.  The sender allocates, fills and pushes;
 * the receiver pops (or looks and then pops), uses and frees.  Every access to the pool's head,
 * tail and links and every access of the ring is a step of its own, so the two actors interleave
 * inside `shm_mp_malloc`, `shm_mp_free`, `shmring_push` and `shmring_pop` in every possible way.
 */
module Channel {
  import opened BoundedQueue
  import opened Options
  import opened MemPool
  import Spsc

  /** `capacity` ring slots and `blocks` pool blocks; the source takes 1024 and 1024 + 32. */
  datatype Config = Config(capacity: nat, blocks: nat) {
    predicate Valid() { capacity > 0 && blocks >= capacity + 2 }
    function Ring(): Spsc.Config { Spsc.Config(capacity, 1) }
  }

  datatype Sender<P> =
    | SIdle
    | SAlloc(p: P)                               // about to load the list head
    | SHead(p: P, h: int)                        // about to test it and load its link
    | SNext(p: P, h: int, nx: int)               // about to store the new head
    | SFill(p: P, b: nat)                        // about to copy the packet into its block
    | SPush(p: P, b: nat)                        // pushing the block number, retrying while full
    | SFault                                     // the allocation assert failed

  datatype Receiver<P> =
    | RIdle
    | RPop                                       // ntp_shm_recv
    | RFront                                     // ntp_shm_front
    | RSeen(b: nat)                              // front returned this block
    | RPlainPop(b: nat)                          // ntp_shm_pop after a front
    | RTaken(b: nat)                             // about to look at the packet
    | RHold(b: nat, p: P)                        // in use
    | RTail(b: nat)                              // about to load the list tail
    | RLink(b: nat, t: int)                      // about to link behind it
    | RMove(b: nat)                              // about to store the new tail

  /** Shared memory and the program counters. */
  datatype Machine<P> = Machine(
    ring: Spsc.Machine<nat>, pool: Pool, mem: seq<P>, snd: Sender<P>, rcv: Receiver<P>)

  datatype Label<P> = Send(p: P) | Sender | Recv | Look | Receiver | Release

  predicate Typed<P>(c: Config, m: Machine<P>) {
    && c.Valid() && Spsc.Typed(c.Ring(), m.ring) && MemPool.Typed(m.pool)
    && |m.pool.next| == c.blocks && |m.mem| == c.blocks
    && (m.snd.SHead? ==> m.snd.h == NIL || InPool(m.pool, m.snd.h))
    && (m.snd.SNext? ==> InPool(m.pool, m.snd.h) && (m.snd.nx == NIL || InPool(m.pool, m.snd.nx)))
    && (m.snd.SFill? || m.snd.SPush? ==> InPool(m.pool, m.snd.b))
    && (!(m.rcv.RIdle? || m.rcv.RPop? || m.rcv.RFront?) ==> InPool(m.pool, m.rcv.b))
    && (m.rcv.RLink? ==> m.rcv.t == NIL || InPool(m.pool, m.rcv.t))
  }

  function RingLabel<P>(m: Machine<P>, l: Label<P>): Option<Spsc.Label<nat>> {
    if l.Sender? && m.snd.SPush? then
      Some(if m.ring.prod.PIdle? then Spsc.StartPush([m.snd.b]) else Spsc.Produce)
    else if l.Receiver? && (m.rcv.RPop? || m.rcv.RFront? || m.rcv.RPlainPop?) then
      Some(if m.ring.cons.CIdle? then Spsc.StartTake(RingOp(m.rcv)) else Spsc.Consume)
    else None
  }

  function RingOp<P>(r: Receiver<P>): Spsc.Op {
    if r.RPop? then Spsc.Pop else if r.RFront? then Spsc.Front else Spsc.PlainPop
  }

  /** A push that found the ring full is simply retried. */
  function StepPush<P>(c: Config, m: Machine<P>): (m': Machine<P>)
    requires Typed(c, m) && m.snd.SPush?
    ensures Typed(c, m')
  {
    var ring := Spsc.Step(c.Ring(), m.ring, RingLabel(m, Sender).value);
    if !m.ring.prod.PIdle? && ring.prod == Spsc.PIdle(true) then m.(ring := ring, snd := SIdle)
    else m.(ring := ring)
  }

  function StepSender<P>(c: Config, m: Machine<P>): (m': Machine<P>)
    requires Typed(c, m)
    ensures Typed(c, m')
  {
    match m.snd
    case SIdle => m
    case SFault => m
    case SAlloc(p) => m.(snd := SHead(p, m.pool.head))
    case SHead(p, h) => if h == NIL then m.(snd := SFault) else m.(snd := SNext(p, h, m.pool.next[h]))
    case SNext(p, h, nx) => m.(pool := m.pool.(head := nx), snd := SFill(p, h))
    case SFill(p, b) => m.(mem := m.mem[b := p], snd := SPush(p, b))
    case SPush(_, _) => StepPush(c, m)
  }

  /** What the receiver does when its ring operation returns. */
  function AfterTake<P>(c: Config, r: Receiver<P>, last: Spsc.Outcome<nat>): Receiver<P> {
    match last
    case Nothing => r
    case Failed(op) => if op.PlainPop? then RPop else RIdle
    case Got(op, x) =>
      if r.RPlainPop? then RTaken(r.b)
      else if |x| == 1 && x[0] < c.blocks then (if op.Front? then RSeen(x[0]) else RTaken(x[0]))
      else r
  }

  function StepTake<P>(c: Config, m: Machine<P>): (m': Machine<P>)
    requires Typed(c, m) && (m.rcv.RPop? || m.rcv.RFront? || m.rcv.RPlainPop?)
    ensures Typed(c, m')
  {
    var ring := Spsc.Step(c.Ring(), m.ring, RingLabel(m, Receiver).value);
    if !m.ring.cons.CIdle? && ring.cons.CIdle?
    then m.(ring := ring, rcv := AfterTake(c, m.rcv, ring.cons.last))
    else m.(ring := ring)
  }

  function StepReceiver<P>(c: Config, m: Machine<P>): (m': Machine<P>)
    requires Typed(c, m)
    ensures Typed(c, m')
  {
    match m.rcv
    case RIdle => m
    case RPop => StepTake(c, m)
    case RFront => StepTake(c, m)
    case RPlainPop(_) => StepTake(c, m)
    case RSeen(b) => m.(rcv := RPlainPop(b))
    case RTaken(b) => m.(rcv := RHold(b, m.mem[b]))
    case RHold(_, _) => m
    case RTail(b) => m.(rcv := RLink(b, m.pool.tail))
    case RLink(b, t) =>
      if t == NIL then m.(pool := MemPool.Release(m.pool.(tail := NIL), b), rcv := RIdle)
      else m.(pool := m.pool.(next := m.pool.next[t := b]), rcv := RMove(b))
    case RMove(b) => m.(pool := m.pool.(tail := b), rcv := RIdle)
  }

  function Step<P>(c: Config, m: Machine<P>, l: Label<P>): (m': Machine<P>)
    requires Typed(c, m)
    ensures Typed(c, m')
  {
    match l
    case Send(p) => if m.snd.SIdle? then m.(snd := SAlloc(p)) else m
    case Sender => StepSender(c, m)
    case Recv => if m.rcv.RIdle? then m.(rcv := RPop) else m
    case Look => if m.rcv.RIdle? then m.(rcv := RFront) else m
    case Receiver => StepReceiver(c, m)
    case Release => if m.rcv.RHold? then m.(rcv := RTail(m.rcv.b)) else m
  }

  // ---------- what a step means ----------

  /**
   * The record of a channel: the ring's history, the free list in order, the packets pushed and
   * the packets looked at by the receiver.
   */
  datatype Log<P> = Log(h: Spsc.History<nat>, free: seq<nat>, sent: seq<P>, received: seq<P>)

  function RingEffect<P>(c: Config, m: Machine<P>, l: Label<P>): Option<Event<seq<nat>>>
    requires c.Valid()
  {
    match RingLabel(m, l)
    case None => None
    case Some(rl) => Spsc.Effect(c.Ring(), m.ring, rl)
  }

  function Record<P>(c: Config, m: Machine<P>, g: Log<P>, l: Label<P>): Log<P>
    requires Typed(c, m)
  {
    var e := RingEffect(c, m, l);
    Log(
      Spsc.Record(g.h, e),
      if l.Sender? && m.snd.SNext? && |g.free| > 0 then g.free[1..]
      else if l.Receiver? && m.rcv.RMove? then g.free + [m.rcv.b]
      else g.free,
      if l.Sender? && m.snd.SPush? && e.Some? && e.value.PushOk? then g.sent + [m.snd.p] else g.sent,
      if l.Receiver? && m.rcv.RTaken? then g.received + [m.mem[m.rcv.b]] else g.received)
  }

  // ---------- the invariant ----------

  predicate Taking<P>(r: Receiver<P>) { r.RPop? || r.RFront? || r.RPlainPop? }

  /** The ring only runs operations that the two actors are in the middle of. */
  predicate Coupled<P>(ring: Spsc.Machine<nat>, h: Spsc.History<nat>, snd: Sender<P>, rcv: Receiver<P>) {
    && (ring.prod.PIdle? || (snd.SPush? && ring.prod.x == [snd.b]))
    && (ring.cons.CIdle? || (Taking(rcv) && ring.cons.op == RingOp(rcv)))
    && (rcv.RSeen? || rcv.RPlainPop? ==>
          && h.popped < |h.pushed| && h.pushed[h.popped] == [rcv.b]
          && (ring.cons.CLoaded? ==> ring.cons.w != ring.readIdx))
  }

  /** The free list is right at every moment, also in the middle of malloc and free. */
  predicate Listed<P>(pool: Pool, free: seq<nat>, snd: Sender<P>, rcv: Receiver<P>) {
    && Chain(pool, free)
    && (snd.SHead? || snd.SNext? ==> |free| > 1 && snd.h == free[0])
    && (snd.SNext? ==> snd.nx == free[1])
    && (rcv.RLink? ==> rcv.t == pool.tail)
    && (rcv.RMove? ==> pool.next[pool.tail] == rcv.b)
  }

  function SenderHolds<P>(s: Sender<P>): seq<nat> {
    if s.SFill? || s.SPush? then [s.b] else []
  }

  function ReceiverHolds<P>(r: Receiver<P>): seq<nat> {
    if r.RIdle? || Taking(r) || r.RSeen? then [] else [r.b]
  }

  function All(n: nat): (b: multiset<nat>)
    ensures |b| == n && forall i :: b[i] == if 0 <= i < n then 1 else 0
  {
    if n == 0 then multiset{} else All(n - 1) + multiset{n - 1}
  }

  /** How often a block is free, queued, or held by either side. */
  function Places(b: nat, free: seq<nat>, queued: seq<nat>, s: seq<nat>, r: seq<nat>): nat {
    multiset(free)[b] + multiset(queued)[b] + multiset(s)[b] + multiset(r)[b]
  }

  /** Each block of the pool is in exactly one of these places, exactly once. */
  ghost predicate Owned(n: nat, free: seq<nat>, queued: seq<nat>, s: seq<nat>, r: seq<nat>) {
    forall b: nat :: Places(b, free, queued, s, r) == if b < n then 1 else 0
  }

  predicate Numbers(h: Spsc.History<nat>) {
    h.popped <= |h.pushed| && forall i :: 0 <= i < |h.pushed| ==> |h.pushed[i]| == 1
  }

  /** The block numbers in the ring, oldest first. */
  function Queued(h: Spsc.History<nat>): seq<nat>
    requires Numbers(h)
  {
    seq(|h.pushed| - h.popped, i requires 0 <= i < |h.pushed| - h.popped => h.pushed[h.popped + i][0])
  }

  /** The blocks in `queued` hold the last packets that were sent. */
  predicate Carried<P(==)>(mem: seq<P>, queued: seq<nat>, sent: seq<P>) {
    && |queued| <= |sent|
    && forall i :: 0 <= i < |queued| ==>
         queued[i] < |mem| && mem[queued[i]] == sent[|sent| - |queued| + i]
  }

  predicate SenderCarries<P(==)>(mem: seq<P>, snd: Sender<P>) {
    snd.SPush? ==> snd.b < |mem| && mem[snd.b] == snd.p
  }

  /** Everything taken off the ring has been received, except a packet not yet looked at. */
  predicate ReceiverCarries<P(==)>(mem: seq<P>, queued: seq<nat>, sent: seq<P>, received: seq<P>, rcv: Receiver<P>)
    requires |queued| <= |sent|
  {
    var taken := |sent| - |queued|;
    && |received| == (if rcv.RTaken? then taken - 1 else taken) && received == sent[..|received|]
    && (rcv.RTaken? ==> rcv.b < |mem| && mem[rcv.b] == sent[taken - 1])
    && (rcv.RHold? ==> taken > 0 && rcv.p == sent[taken - 1])
  }

  ghost predicate Inv<P>(c: Config, m: Machine<P>, g: Log<P>) {
    && Typed(c, m) && Spsc.Inv(c.Ring(), m.ring, g.h) && Numbers(g.h) && m.snd != SFault
    && Coupled(m.ring, g.h, m.snd, m.rcv)
    && Listed(m.pool, g.free, m.snd, m.rcv)
    && Owned(c.blocks, g.free, Queued(g.h), SenderHolds(m.snd), ReceiverHolds(m.rcv))
    && |g.sent| == |g.h.pushed|
    && Carried(m.mem, Queued(g.h), g.sent) && SenderCarries(m.mem, m.snd)
    && ReceiverCarries(m.mem, Queued(g.h), g.sent, g.received, m.rcv)
  }

  // ---------- ownership ----------

  /** A block in one of the four places is in no other place. */
  lemma OwnedOnce(n: nat, free: seq<nat>, queued: seq<nat>, s: seq<nat>, r: seq<nat>, b: nat)
    requires Owned(n, free, queued, s, r)
    ensures |free| + |queued| + |s| + |r| == n
    ensures b in s ==> b !in free && b !in queued && b !in r && b < n
    ensures b in r ==> b !in free && b !in queued && b !in s && b < n
    ensures b in queued ==> b < n
  {
    var all := multiset(free) + multiset(queued) + multiset(s) + multiset(r);
    assert |all| == |free| + |queued| + |s| + |r|;
    forall x: nat
      ensures all[x] == All(n)[x]
    {
      assert all[x] == Places(x, free, queued, s, r);
    }
    assert all == All(n);
    assert Places(b, free, queued, s, r) <= 1;
  }

  lemma AllocMovesBlock(n: nat, free: seq<nat>, queued: seq<nat>, r: seq<nat>)
    requires Owned(n, free, queued, [], r) && |free| > 0
    ensures Owned(n, free[1..], queued, [free[0]], r)
  {
    assert free == [free[0]] + free[1..];
    forall x: nat
      ensures Places(x, free[1..], queued, [free[0]], r) == Places(x, free, queued, [], r)
    {
      assert multiset(free) == multiset([free[0]]) + multiset(free[1..]);
    }
  }

  lemma PushMovesBlock(n: nat, free: seq<nat>, queued: seq<nat>, b: nat, r: seq<nat>)
    requires Owned(n, free, queued, [b], r)
    ensures Owned(n, free, queued + [b], [], r)
  {
    forall x: nat
      ensures Places(x, free, queued + [b], [], r) == Places(x, free, queued, [b], r)
    {
    }
  }

  lemma PopMovesBlock(n: nat, free: seq<nat>, queued: seq<nat>, s: seq<nat>)
    requires Owned(n, free, queued, s, []) && |queued| > 0
    ensures Owned(n, free, queued[1..], s, [queued[0]])
  {
    assert queued == [queued[0]] + queued[1..];
    forall x: nat
      ensures Places(x, free, queued[1..], s, [queued[0]]) == Places(x, free, queued, s, [])
    {
      assert multiset(queued) == multiset([queued[0]]) + multiset(queued[1..]);
    }
  }

  lemma FreeMovesBlock(n: nat, free: seq<nat>, queued: seq<nat>, s: seq<nat>, b: nat)
    requires Owned(n, free, queued, s, [b])
    ensures Owned(n, free + [b], queued, s, [])
  {
    forall x: nat
      ensures Places(x, free + [b], queued, s, []) == Places(x, free, queued, s, [b])
    {
    }
  }

  /** Data traffic leaves at least `blocks - capacity` blocks free when the sender allocates. */
  lemma TrafficSparesBlocks<P>(c: Config, m: Machine<P>, g: Log<P>)
    requires Inv(c, m, g)
    ensures SenderHolds(m.snd) == [] ==> |g.free| >= c.blocks - c.capacity
    ensures |g.free| >= c.blocks - c.capacity - 1
  {
    OwnedOnce(c.blocks, g.free, Queued(g.h), SenderHolds(m.snd), ReceiverHolds(m.rcv), 0);
  }

  // ---------- the queue of packets ----------

  lemma QueuedAfterPush(h: Spsc.History<nat>, b: nat)
    requires Numbers(h)
    ensures var h' := h.(pushed := h.pushed + [[b]]);
            Numbers(h') && Queued(h') == Queued(h) + [b]
  {
  }

  lemma QueuedAfterPop(h: Spsc.History<nat>)
    requires Numbers(h) && h.popped < |h.pushed|
    ensures var h' := h.(popped := h.popped + 1);
            Numbers(h') && |Queued(h)| > 0 && h.pushed[h.popped] == [Queued(h)[0]] && Queued(h') == Queued(h)[1..]
  {
  }

  lemma PushKeepsCarried<P>(mem: seq<P>, queued: seq<nat>, sent: seq<P>, received: seq<P>,
                            snd: Sender<P>, rcv: Receiver<P>)
    requires Carried(mem, queued, sent) && snd.SPush? && SenderCarries(mem, snd)
    requires ReceiverCarries(mem, queued, sent, received, rcv)
    ensures Carried(mem, queued + [snd.b], sent + [snd.p])
    ensures ReceiverCarries(mem, queued + [snd.b], sent + [snd.p], received, rcv)
  {
  }

  // ---------- every step keeps the invariant ----------

  lemma AllocKeepsListed<P>(pool: Pool, free: seq<nat>, snd: Sender<P>, rcv: Receiver<P>)
    requires MemPool.Typed(pool) && Listed(pool, free, snd, rcv) && |free| > 1
    ensures snd.SAlloc? ==> Listed(pool, free, SHead(snd.p, pool.head), rcv)
    ensures snd.SHead? ==> snd.h != NIL && Listed(pool, free, SNext(snd.p, snd.h, pool.next[snd.h]), rcv)
    ensures snd.SNext? ==>
      snd.h == free[0] && Listed(pool.(head := snd.nx), free[1..], SFill(snd.p, free[0]), rcv)
  {
    if snd.SNext? {
      MallocTakesOldest(pool, free);
    }
  }

  lemma AllocKeepsInv<P>(c: Config, m: Machine<P>, g: Log<P>)
    requires Inv(c, m, g) && (m.snd.SAlloc? || m.snd.SHead? || m.snd.SNext?)
    ensures Inv(c, StepSender(c, m), Record(c, m, g, Sender))
  {
    hide Spsc.Inv, Listed, Owned, Carried, ReceiverCarries, Numbers, Queued;
    TrafficSparesBlocks(c, m, g);
    AllocKeepsListed(m.pool, g.free, m.snd, m.rcv);
    if m.snd.SNext? {
      AllocMovesBlock(c.blocks, g.free, Queued(g.h), ReceiverHolds(m.rcv));
    }
  }

  lemma FillKeepsCarried<P>(c: Config, m: Machine<P>, g: Log<P>)
    requires Inv(c, m, g) && m.snd.SFill?
    ensures var mem := m.mem[m.snd.b := m.snd.p];
            && Carried(mem, Queued(g.h), g.sent)
            && ReceiverCarries(mem, Queued(g.h), g.sent, g.received, m.rcv)
  {
    hide Spsc.Inv, Listed, Coupled, Numbers, Queued, Owned, Spsc.Typed, MemPool.Typed;
    OwnedOnce(c.blocks, g.free, Queued(g.h), SenderHolds(m.snd), ReceiverHolds(m.rcv), m.snd.b);
  }

  lemma FillKeepsInv<P>(c: Config, m: Machine<P>, g: Log<P>)
    requires Inv(c, m, g) && m.snd.SFill?
    ensures Inv(c, StepSender(c, m), Record(c, m, g, Sender))
  {
    hide Spsc.Inv, Owned, Carried, ReceiverCarries, Numbers, Queued, Chain;
    FillKeepsCarried(c, m, g);
  }

  lemma PushKeepsInv<P>(c: Config, m: Machine<P>, g: Log<P>)
    requires Inv(c, m, g) && m.snd.SPush?
    ensures Inv(c, StepSender(c, m), Record(c, m, g, Sender))
  {
    hide Spsc.Inv, Owned, Carried, ReceiverCarries, Numbers, Queued, Chain, MemPool.Typed;
    Spsc.StepKeepsInv(c.Ring(), m.ring, g.h, RingLabel(m, Sender).value);
    if RingEffect(c, m, Sender).Some? && RingEffect(c, m, Sender).value.PushOk? {
      QueuedAfterPush(g.h, m.snd.b);
      PushMovesBlock(c.blocks, g.free, Queued(g.h), m.snd.b, ReceiverHolds(m.rcv));
      PushKeepsCarried(m.mem, Queued(g.h), g.sent, g.received, m.snd, m.rcv);
    }
  }

  lemma SenderKeepsInv<P>(c: Config, m: Machine<P>, g: Log<P>)
    requires Inv(c, m, g)
    ensures Inv(c, StepSender(c, m), Record(c, m, g, Sender))
  {
    hide Spsc.Inv, Listed, Owned, Coupled, Carried, SenderCarries, ReceiverCarries, Numbers, Queued;
    match m.snd
    case SIdle =>
    case SAlloc(_) => AllocKeepsInv(c, m, g);
    case SHead(_, _) => AllocKeepsInv(c, m, g);
    case SNext(_, _, _) => AllocKeepsInv(c, m, g);
    case SFill(_, _) => FillKeepsInv(c, m, g);
    case SPush(_, _) => PushKeepsInv(c, m, g);
    case SFault =>
  }

  /** A ring operation of the receiver that takes nothing off the ring. */
  lemma TakeNothingKeepsInv<P>(c: Config, m: Machine<P>, g: Log<P>)
    requires Inv(c, m, g) && Taking(m.rcv)
    requires m.ring.cons.CIdle? || !StepTake(c, m).ring.cons.CIdle? || !StepTake(c, m).ring.cons.last.Got?
    ensures Inv(c, StepTake(c, m), Record(c, m, g, Receiver))
  {
    hide Spsc.Inv, Chain, Owned, Carried, SenderCarries, Numbers, Queued;
    Spsc.StepKeepsInv(c.Ring(), m.ring, g.h, RingLabel(m, Receiver).value);
    Spsc.IndicesTellEmpty(c.Ring(), m.ring, g.h);
    if !m.ring.cons.CIdle? {
      Spsc.TakeOutcome(c.Ring(), m.ring, g.h);
    }
  }

  /** A ring operation of the receiver that returns an element. */
  lemma TakeSomethingKeepsInv<P>(c: Config, m: Machine<P>, g: Log<P>)
    requires Inv(c, m, g) && Taking(m.rcv) && !m.ring.cons.CIdle?
    requires StepTake(c, m).ring.cons.CIdle? && StepTake(c, m).ring.cons.last.Got?
    ensures Inv(c, StepTake(c, m), Record(c, m, g, Receiver))
  {
    hide Spsc.Inv, Spsc.Typed, MemPool.Typed, Listed, Owned, Carried, SenderCarries, ReceiverCarries, Numbers, Queued;
    Spsc.StepKeepsInv(c.Ring(), m.ring, g.h, RingLabel(m, Receiver).value);
    Spsc.TakeOutcome(c.Ring(), m.ring, g.h);
    QueuedAfterPop(g.h);
    OwnedOnce(c.blocks, g.free, Queued(g.h), SenderHolds(m.snd), [], Queued(g.h)[0]);
    if !m.rcv.RFront? {
      PopMovesBlock(c.blocks, g.free, Queued(g.h), SenderHolds(m.snd));
    }
    PopKeepsCarried(m.mem, Queued(g.h), g.sent, g.received, m.rcv);
    TakeKeepsListed(m.pool, g.free, m.snd, m.rcv, StepTake(c, m).rcv);
  }

  lemma TakeKeepsListed<P>(pool: Pool, free: seq<nat>, snd: Sender<P>, rcv: Receiver<P>, rcv': Receiver<P>)
    requires Listed(pool, free, snd, rcv) && !rcv'.RLink? && !rcv'.RMove?
    ensures Listed(pool, free, snd, rcv')
  {
    hide Chain;
  }

  lemma PopKeepsCarried<P>(mem: seq<P>, queued: seq<nat>, sent: seq<P>, received: seq<P>, rcv: Receiver<P>)
    requires |queued| > 0 && Carried(mem, queued, sent) && Taking(rcv)
    requires ReceiverCarries(mem, queued, sent, received, rcv)
    ensures Carried(mem, queued[1..], sent)
    ensures ReceiverCarries(mem, queued, sent, received, RSeen(queued[0]))
    ensures ReceiverCarries(mem, queued[1..], sent, received, RTaken(queued[0]))
  {
  }

  lemma FreeKeepsListed<P>(pool: Pool, free: seq<nat>, snd: Sender<P>, rcv: Receiver<P>)
    requires MemPool.Typed(pool) && Listed(pool, free, snd, rcv)
    requires rcv.RLink? || rcv.RMove? ==> InPool(pool, rcv.b) && rcv.b !in free
    ensures rcv.RTail? ==> Listed(pool, free, snd, RLink(rcv.b, pool.tail))
    ensures rcv.RLink? ==>
      rcv.t != NIL && Listed(pool.(next := pool.next[rcv.t := rcv.b]), free, snd, RMove(rcv.b))
    ensures rcv.RMove? ==> Listed(pool.(tail := rcv.b), free + [rcv.b], snd, RIdle)
  {
    if rcv.RMove? {
      FreeAppends(pool, free, rcv.b);
      assert pool.next[pool.tail := rcv.b] == pool.next;
    }
  }

  lemma FreeTailKeepsInv<P>(c: Config, m: Machine<P>, g: Log<P>)
    requires Inv(c, m, g) && m.rcv.RTail?
    ensures Inv(c, StepReceiver(c, m), Record(c, m, g, Receiver))
  {
    hide Spsc.Inv, Spsc.Typed, MemPool.Typed, Listed, Owned, Carried, SenderCarries, Numbers, Queued;
    FreeKeepsListed(m.pool, g.free, m.snd, m.rcv);
  }

  lemma FreeLinkKeepsInv<P>(c: Config, m: Machine<P>, g: Log<P>)
    requires Inv(c, m, g) && m.rcv.RLink?
    ensures Inv(c, StepReceiver(c, m), Record(c, m, g, Receiver))
  {
    hide Spsc.Inv, Spsc.Typed, MemPool.Typed, Listed, Owned, Carried, SenderCarries, Numbers, Queued;
    OwnedOnce(c.blocks, g.free, Queued(g.h), SenderHolds(m.snd), ReceiverHolds(m.rcv), m.rcv.b);
    FreeKeepsListed(m.pool, g.free, m.snd, m.rcv);
  }

  lemma FreeMoveKeepsInv<P>(c: Config, m: Machine<P>, g: Log<P>)
    requires Inv(c, m, g) && m.rcv.RMove?
    ensures Inv(c, StepReceiver(c, m), Record(c, m, g, Receiver))
  {
    hide Spsc.Inv, Spsc.Typed, MemPool.Typed, Listed, Owned, Carried, SenderCarries, Numbers, Queued;
    OwnedOnce(c.blocks, g.free, Queued(g.h), SenderHolds(m.snd), ReceiverHolds(m.rcv), m.rcv.b);
    FreeKeepsListed(m.pool, g.free, m.snd, m.rcv);
    FreeMovesBlock(c.blocks, g.free, Queued(g.h), SenderHolds(m.snd), m.rcv.b);
  }

  lemma FreeKeepsInv<P>(c: Config, m: Machine<P>, g: Log<P>)
    requires Inv(c, m, g) && (m.rcv.RTail? || m.rcv.RLink? || m.rcv.RMove?)
    ensures Inv(c, StepReceiver(c, m), Record(c, m, g, Receiver))
  {
    hide Inv;
    if m.rcv.RTail? {
      FreeTailKeepsInv(c, m, g);
    } else if m.rcv.RLink? {
      FreeLinkKeepsInv(c, m, g);
    } else {
      FreeMoveKeepsInv(c, m, g);
    }
  }

  lemma UseKeepsInv<P>(c: Config, m: Machine<P>, g: Log<P>)
    requires Inv(c, m, g) && (m.rcv.RSeen? || m.rcv.RTaken?)
    ensures Inv(c, StepReceiver(c, m), Record(c, m, g, Receiver))
  {
    hide Spsc.Inv, Spsc.Typed, Chain, Owned, Carried, SenderCarries, Numbers, Queued;
  }

  lemma ReceiverKeepsInv<P>(c: Config, m: Machine<P>, g: Log<P>)
    requires Inv(c, m, g)
    ensures Inv(c, StepReceiver(c, m), Record(c, m, g, Receiver))
  {
    hide Spsc.Inv, Listed, Owned, Coupled, Carried, SenderCarries, ReceiverCarries, Numbers, Queued;
    if Taking(m.rcv) {
      var ring := StepTake(c, m).ring;
      if m.ring.cons.CIdle? || !ring.cons.CIdle? || !ring.cons.last.Got? {
        TakeNothingKeepsInv(c, m, g);
      } else {
        TakeSomethingKeepsInv(c, m, g);
      }
    } else if m.rcv.RSeen? || m.rcv.RTaken? {
      UseKeepsInv(c, m, g);
    } else if m.rcv.RTail? || m.rcv.RLink? || m.rcv.RMove? {
      FreeKeepsInv(c, m, g);
    }
  }

  lemma StepKeepsInv<P>(c: Config, m: Machine<P>, g: Log<P>, l: Label<P>)
    requires Inv(c, m, g)
    ensures Inv(c, Step(c, m, l), Record(c, m, g, l))
  {
    hide Spsc.Inv, Chain, Owned, Carried, Numbers, Queued;
    match l
    case Sender => SenderKeepsInv(c, m, g);
    case Receiver => ReceiverKeepsInv(c, m, g);
    case _ =>
  }

  // ---------- whole runs ----------

  ghost predicate Init<P>(c: Config, m: Machine<P>) {
    && c.Valid() && Spsc.Init(c.Ring(), m.ring) && m.pool == Fresh(c.blocks) && |m.mem| == c.blocks
    && m.snd == SIdle && m.rcv == RIdle
  }

  /** The record of a channel that has just been set up. */
  function NewLog<P>(c: Config): Log<P> {
    Log(Spsc.History([], 0), Indices(c.blocks), [], [])
  }

  lemma InitIsInv<P>(c: Config, m: Machine<P>)
    requires Init(c, m)
    ensures Inv(c, m, NewLog(c))
  {
    FreshIsSound(c.blocks);
    FreshOwnsAll(c.blocks);
  }

  lemma FreshOwnsAll(n: nat)
    ensures Owned(n, Indices(n), [], [], [])
  {
    forall b: nat
      ensures Places(b, Indices(n), [], [], []) == if b < n then 1 else 0
    {
      IndicesOnce(n);
    }
  }

  lemma {:induction false} IndicesOnce(n: nat)
    ensures multiset(Indices(n)) == All(n)
  {
    if n > 0 {
      IndicesOnce(n - 1);
      assert Indices(n) == Indices(n - 1) + [n - 1];
    }
  }

  datatype Trace<P> = Trace(m: Machine<P>, g: Log<P>)

  function Run<P>(c: Config, m0: Machine<P>, schedule: seq<Label<P>>): (t: Trace<P>)
    requires Typed(c, m0)
    ensures Typed(c, t.m)
  {
    if schedule == [] then Trace(m0, NewLog(c))
    else
      Extend(c, Run(c, m0, schedule[..|schedule| - 1]), schedule[|schedule| - 1])
  }

  lemma {:induction false} RunKeepsInv<P>(c: Config, m0: Machine<P>, schedule: seq<Label<P>>)
    requires Init(c, m0)
    ensures Typed(c, m0)
    ensures var t := Run(c, m0, schedule); Inv(c, t.m, t.g)
  {
    hide Inv, Record, Step;
    InitIsInv(c, m0);
    TypedFromInv(c, m0, NewLog(c));
    if schedule != [] {
      var t := Run(c, m0, schedule[..|schedule| - 1]);
      RunKeepsInv(c, m0, schedule[..|schedule| - 1]);
      StepKeepsInv(c, t.m, t.g, schedule[|schedule| - 1]);
    }
  }

  lemma TypedFromInv<P>(c: Config, m: Machine<P>, g: Log<P>)
    requires Inv(c, m, g)
    ensures Typed(c, m) && m.snd != SFault
  {
  }

  /** Packets arrive unchanged, in order and at most once, in every interleaving. */
  lemma DeliversPrefix<P>(c: Config, m0: Machine<P>, schedule: seq<Label<P>>)
    requires Init(c, m0)
    ensures Typed(c, m0)
    ensures var g := Run(c, m0, schedule).g; g.received <= g.sent
  {
    RunKeepsInv(c, m0, schedule);
  }

  /** The allocation assert never fails, and the pool's last block never leaves the free list. */
  lemma AllocationNeverFails<P>(c: Config, m0: Machine<P>, schedule: seq<Label<P>>)
    requires Init(c, m0)
    ensures Typed(c, m0)
    ensures var t := Run(c, m0, schedule);
            && t.m.snd != SFault
            && Chain(t.m.pool, t.g.free) && |t.g.free| >= c.blocks - c.capacity - 1
  {
    RunKeepsInv(c, m0, schedule);
    var t := Run(c, m0, schedule);
    TrafficSparesBlocks(c, t.m, t.g);
  }

  /** A malloc about to read a link and a free about to write one never mean the same node. */
  lemma MallocAndFreeTouchDifferentLinks<P>(c: Config, m0: Machine<P>, schedule: seq<Label<P>>)
    requires Init(c, m0)
    ensures Typed(c, m0)
    ensures var m := Run(c, m0, schedule).m;
            m.snd.SHead? && m.rcv.RLink? ==> m.snd.h != m.rcv.t
  {
    RunKeepsInv(c, m0, schedule);
  }

  // ---------- what a user of the channel sees ----------

  /** A channel with its record. */
  function Extend<P>(c: Config, t: Trace<P>, l: Label<P>): (t': Trace<P>)
    requires Typed(c, t.m)
    ensures Typed(c, t'.m)
  {
    Trace(Step(c, t.m, l), Record(c, t.m, t.g, l))
  }

  /** The packet that the sender is working on. */
  function Pending<P>(s: Sender<P>): seq<P> {
    if s.SIdle? || s.SFault? then [] else [s.p]
  }

  lemma SendAccepts<P>(c: Config, t: Trace<P>, p: P)
    requires Inv(c, t.m, t.g) && t.m.snd.SIdle?
    ensures var t' := Extend(c, t, Send(p));
            && Inv(c, t'.m, t'.g) && t'.g == t.g && t'.m.rcv == t.m.rcv
            && !t'.m.snd.SIdle? && Pending(t'.m.snd) == [p]
  {
    hide Inv, Spsc.Typed, MemPool.Typed;
    StepKeepsInv(c, t.m, t.g, Send(p));
    TypedFromInv(c, t.m, t.g);
  }

  /** A step of the sender keeps its packet, or queues it and becomes idle. */
  lemma SenderStep<P>(c: Config, t: Trace<P>)
    requires Inv(c, t.m, t.g)
    ensures var t' := Extend(c, t, Sender);
            && Inv(c, t'.m, t'.g) && t'.g.received == t.g.received && t'.m.rcv == t.m.rcv
            && t'.g.sent + Pending(t'.m.snd) == t.g.sent + Pending(t.m.snd)
            && (t'.m.snd.SIdle? ==> t'.g.sent == t.g.sent + Pending(t.m.snd))
            && (!t'.m.snd.SIdle? ==> t'.g.sent == t.g.sent)
  {
    hide Inv, Spsc.Typed, MemPool.Typed;
    StepKeepsInv(c, t.m, t.g, Sender);
    TypedFromInv(c, t.m, t.g);
    var t' := Extend(c, t, Sender);
    TypedFromInv(c, t'.m, t'.g);
  }

  lemma ReceiverStarts<P>(c: Config, t: Trace<P>, l: Label<P>)
    requires Inv(c, t.m, t.g) && (l.Recv? || l.Look? || l.Release?)
    ensures var t' := Extend(c, t, l);
            && Inv(c, t'.m, t'.g) && t'.g == t.g && t'.m.snd == t.m.snd
            && (t.m.rcv.RIdle? && !l.Release? ==> t'.m.rcv == if l.Recv? then RPop else RFront)
            && (t.m.rcv.RHold? && l.Release? ==> t'.m.rcv == RTail(t.m.rcv.b))
  {
    hide Inv, Spsc.Typed, MemPool.Typed;
    StepKeepsInv(c, t.m, t.g, l);
    TypedFromInv(c, t.m, t.g);
  }

  /** A packet is received when, and only when, the receiver comes to hold it. */
  lemma ReceiverStep<P>(c: Config, t: Trace<P>)
    requires Inv(c, t.m, t.g)
    ensures var t' := Extend(c, t, Receiver);
            && Inv(c, t'.m, t'.g) && t'.g.sent == t.g.sent && t'.m.snd == t.m.snd
            && (if t'.m.rcv.RHold? && !t.m.rcv.RHold? then t'.g.received == t.g.received + [t'.m.rcv.p]
                else t'.g.received == t.g.received)
            && (t.m.rcv.RHold? ==> t'.m == t.m)
            && (Freeing(t.m.rcv) ==> Freeing(t'.m.rcv) || t'.m.rcv.RIdle?)
  {
    hide Inv, Spsc.Typed, MemPool.Typed;
    StepKeepsInv(c, t.m, t.g, Receiver);
    TypedFromInv(c, t.m, t.g);
  }

  predicate Freeing<P>(r: Receiver<P>) { r.RTail? || r.RLink? || r.RMove? }

  /** What was received is the beginning of what was sent, and ends with what is held. */
  lemma ReceivedIsPrefix<P>(c: Config, t: Trace<P>)
    requires Inv(c, t.m, t.g)
    ensures Typed(c, t.m) && t.g.received <= t.g.sent
    ensures t.m.rcv.RHold? ==> |t.g.received| > 0 && t.m.rcv.p == t.g.received[|t.g.received| - 1]
  {
    hide Typed, Spsc.Inv, Numbers, Coupled, Listed, Owned, SenderCarries;
    var taken := |t.g.sent| - |Queued(t.g.h)|;
    assert t.g.received == t.g.sent[..|t.g.received|];
  }
}
