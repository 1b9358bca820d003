/**
 * The data ring across the PCIe bridge.  The sending proxy writes packets into slots of the
 * peer's memory and keeps only a shadow of the peer's read index; the receiving proxy polls the
 * length field of its next slot, and now and then writes its read index back into the shadow.
 * Writes travel over the bridge with any delay but in order, in both directions.
 */
module NtbRing {
  import opened RingIndex
  import opened Packets

  /**
   * `capacity` slots; the read index goes back every `interval` packets (512 in the source), or
   * when the sender asks, which it does when its lead is a multiple of `pushEvery` (1024).
   */
  datatype Config = Config(capacity: nat, interval: nat, pushEvery: nat) {
    predicate Valid() { capacity > 0 && interval > 0 && pushEvery > 0 }
  }

  /** A slot: the length field of its header, the push flag, and the packet. */
  datatype Slot = Slot(len: nat, push: bool, p: Packet)

  datatype Sender =
    | EIdle
    | ESpin(p: Packet)                    // about to compare with the shadow index
    | EFlag(p: Packet)                    // about to decide on the push flag
    | EWrite(p: Packet, push: bool)       // about to write the slot
    | EMove                               // about to advance the write index

  datatype Receiver =
    | QPoll                               // about to look at the length field
    | QGot(push: bool, p: Packet)         // about to honour the push flag
    | QHold(p: Packet)                    // forwarding the packet to its connection
    | QClear                              // about to clear the length field
    | QMove                               // about to advance the read index
    | QCount                              // about to check the packet counter

  /** The peer's memory, both indices, both directions of the bridge, and the program counters. */
  datatype Machine = Machine(
    slots: seq<Slot>, writeIdx: nat, readIdx: nat, shadow: nat, counter: nat,
    wire: seq<(nat, Slot)>,               // slot writes on their way to the receiver
    posted: seq<nat>,                     // read indices on their way to the sender
    snd: Sender, rcv: Receiver)

  datatype Label = Send(p: Packet) | Sender | DeliverSlot | DeliverIndex | Receiver | Forwarded

  predicate Typed(c: Config, m: Machine) {
    && c.Valid() && |m.slots| == c.capacity
    && m.writeIdx < c.capacity && m.readIdx < c.capacity && m.shadow < c.capacity
    && OnBridge(c.capacity, m.wire, m.posted)
  }

  predicate OnBridge(cap: nat, wire: seq<(nat, Slot)>, posted: seq<nat>) {
    && (forall i :: 0 <= i < |wire| ==> wire[i].0 < cap)
    && (forall i :: 0 <= i < |posted| ==> posted[i] < cap)
  }

  /** The sender asks for the read index when its lead over the shadow has these low bits clear. */
  predicate AsksIndex(c: Config, next: nat, shadow: nat)
    requires c.Valid()
  {
    (next - shadow) % c.pushEvery == 0
  }

  /** The receiver sends its read index back on its own. */
  predicate Due(c: Config, counter: nat)
    requires c.Valid()
  {
    counter % c.interval == 0
  }

  function StepSender(c: Config, m: Machine): (m': Machine)
    requires Typed(c, m)
    ensures Typed(c, m')
  {
    var next := Wrap(m.writeIdx, c.capacity);
    match m.snd
    case EIdle => m
    case ESpin(p) => if next == m.shadow then m else m.(snd := EFlag(p))
    case EFlag(p) => m.(snd := EWrite(p, AsksIndex(c, next, m.shadow)))
    case EWrite(p, push) =>
      m.(wire := m.wire + [(m.writeIdx, Slot(p.MsgLen(), push, p))], snd := EMove)
    case EMove => m.(writeIdx := next, snd := EIdle)
  }

  function StepReceiver(c: Config, m: Machine): (m': Machine)
    requires Typed(c, m)
    ensures Typed(c, m')
  {
    match m.rcv
    case QPoll =>
      var s := m.slots[m.readIdx];
      if s.len == 0 then m else m.(rcv := QGot(s.push, s.p), counter := m.counter + 1)
    case QGot(push, p) => m.(posted := if push then m.posted + [m.readIdx] else m.posted, rcv := QHold(p))
    case QHold(_) => m
    case QClear => m.(slots := m.slots[m.readIdx := m.slots[m.readIdx].(len := 0)], rcv := QMove)
    case QMove => m.(readIdx := Wrap(m.readIdx, c.capacity), rcv := QCount)
    case QCount =>
      m.(posted := if Due(c, m.counter) then m.posted + [m.readIdx] else m.posted, rcv := QPoll)
  }

  function Step(c: Config, m: Machine, l: Label): (m': Machine)
    requires Typed(c, m)
    ensures Typed(c, m')
  {
    match l
    case Send(p) => if m.snd.EIdle? then m.(snd := ESpin(p)) else m
    case Sender => StepSender(c, m)
    case DeliverSlot =>
      if m.wire == [] then m else m.(slots := m.slots[m.wire[0].0 := m.wire[0].1], wire := m.wire[1..])
    case DeliverIndex =>
      if m.posted == [] then m else m.(shadow := m.posted[0], posted := m.posted[1..])
    case Receiver => StepReceiver(c, m)
    case Forwarded => if m.rcv.QHold? then m.(rcv := QClear) else m
  }

  // ---------- what a step means ----------

  /** Packets written and packets taken, and the unbounded counts behind the shadow indices. */
  datatype Log = Log(sent: seq<Packet>, taken: seq<Packet>, seen: nat, counts: seq<nat>)

  function Record(c: Config, m: Machine, g: Log, l: Label): Log
    requires Typed(c, m)
  {
    match l
    case Sender => if m.snd.EWrite? then g.(sent := g.sent + [m.snd.p]) else g
    case DeliverIndex =>
      if m.posted == [] || g.counts == [] then g else g.(seen := g.counts[0], counts := g.counts[1..])
    case Receiver =>
      if m.rcv.QPoll? && m.slots[m.readIdx].len != 0 then g.(taken := g.taken + [m.slots[m.readIdx].p])
      else if |StepReceiver(c, m).posted| > |m.posted| then g.(counts := g.counts + [Reads(m, g)])
      else g
    case _ => g
  }

  /** How many packets the read index has passed. */
  function Reads(m: Machine, g: Log): nat {
    if m.rcv.QPoll? || m.rcv.QCount? || g.taken == [] then |g.taken| else |g.taken| - 1
  }

  /** How many packets the write index has passed. */
  function Writes(m: Machine, g: Log): nat {
    if m.snd.EMove? && g.sent != [] then |g.sent| - 1 else |g.sent|
  }

  /** How many length fields have been cleared. */
  function Cleared(m: Machine, g: Log): nat {
    if m.rcv.QMove? then |g.taken| else Reads(m, g)
  }

  /** How many slot writes have arrived. */
  function Arrived(m: Machine, g: Log): int {
    |g.sent| - |m.wire|
  }

  // ---------- the invariant ----------

  /** shadow <= read index <= arrived <= written < shadow + capacity. */
  predicate Ordered(c: Config, m: Machine, g: Log) {
    && |g.taken| <= Arrived(m, g)
    && (m.rcv.QPoll? || m.rcv.QCount? || g.taken != []) && (m.snd.EMove? ==> g.sent != [])
    && g.seen <= Reads(m, g) && |g.sent| <= g.seen + c.capacity - 1
    && (m.snd.EFlag? || m.snd.EWrite? ==> |g.sent| < g.seen + c.capacity - 1)
    && m.counter == |g.taken|
  }

  /** The real indices are the reduced counts. */
  predicate Indexed(c: Config, m: Machine, g: Log)
    requires c.Valid()
  {
    && m.writeIdx == RingIndex.Slot(Writes(m, g), c.capacity)
    && m.readIdx == RingIndex.Slot(Reads(m, g), c.capacity)
    && m.shadow == RingIndex.Slot(g.seen, c.capacity)
  }

  /** So are the read indices on the bridge, which are in order and between shadow and read index. */
  predicate Posted(cap: nat, posted: seq<nat>, counts: seq<nat>, lo: nat, hi: nat)
    requires cap > 0
  {
    && |counts| == |posted|
    && (forall i :: 0 <= i < |counts| ==>
          lo <= counts[i] <= hi && posted[i] == RingIndex.Slot(counts[i], cap))
    && (forall i, j :: 0 <= i < j < |counts| ==> counts[i] <= counts[j])
  }

  predicate Holds(s: Slot, p: Packet) { s.len == p.MsgLen() && s.p == p }

  predicate Filled(cap: nat, slots: seq<Slot>, sent: seq<Packet>, lo: nat, hi: nat)
    requires cap > 0 && |slots| == cap && hi <= |sent|
  {
    forall k :: lo <= k < hi ==> Holds(slots[RingIndex.Slot(k, cap)], sent[k])
  }

  predicate Empty(cap: nat, slots: seq<Slot>, lo: nat, hi: nat)
    requires cap > 0 && |slots| == cap
  {
    forall k :: lo <= k < hi ==> slots[RingIndex.Slot(k, cap)].len == 0
  }

  predicate Wired(cap: nat, wire: seq<(nat, Slot)>, sent: seq<Packet>)
    requires cap > 0 && |wire| <= |sent|
  {
    var arrived := |sent| - |wire|;
    forall i :: 0 <= i < |wire| ==>
      wire[i].0 == RingIndex.Slot(arrived + i, cap) && Holds(wire[i].1, sent[arrived + i])
  }

  predicate Taken(m: Machine, g: Log) {
    && g.taken <= g.sent
    && (m.rcv.QGot? || m.rcv.QHold? ==> |g.taken| > 0 && m.rcv.p == g.taken[|g.taken| - 1])
  }

  /**
   * A slot's length field is non-zero exactly while its packet has arrived and is not cleared:
   * the two ranges of counts together go once around the ring.
   */
  ghost predicate Inv(c: Config, m: Machine, g: Log) {
    && Typed(c, m) && Ordered(c, m, g) && Indexed(c, m, g) && Taken(m, g)
    && Posted(c.capacity, m.posted, g.counts, g.seen, Reads(m, g))
    && Filled(c.capacity, m.slots, g.sent, Cleared(m, g), Arrived(m, g))
    && Empty(c.capacity, m.slots, Arrived(m, g), Cleared(m, g) + c.capacity)
    && Wired(c.capacity, m.wire, g.sent)
  }

  // ---------- every step keeps it ----------

  lemma SpinKeepsInv(c: Config, m: Machine, g: Log)
    requires Inv(c, m, g) && (m.snd.ESpin? || m.snd.EFlag?)
    ensures Inv(c, StepSender(c, m), Record(c, m, g, Sender))
  {
    hide Posted, Filled, Empty, Wired, AsksIndex;
    Next(|g.sent|, c.capacity);
    SlotsWithinLap(g.seen, |g.sent| + 1, c.capacity);
  }

  lemma WriteKeepsInv(c: Config, m: Machine, g: Log)
    requires Inv(c, m, g) && m.snd.EWrite?
    ensures Inv(c, StepSender(c, m), Record(c, m, g, Sender))
  {
    hide Posted, Empty, OnBridge, Filled, Wired;
    var slot := Slot(m.snd.p.MsgLen(), m.snd.push, m.snd.p);
    FilledMore(c.capacity, m.slots, g.sent, m.snd.p, Cleared(m, g), Arrived(m, g));
    WiredMore(c.capacity, m.wire, g.sent, slot, m.snd.p);
  }

  lemma FilledMore(cap: nat, slots: seq<Slot>, sent: seq<Packet>, p: Packet, lo: nat, hi: nat)
    requires cap > 0 && |slots| == cap && hi <= |sent| && Filled(cap, slots, sent, lo, hi)
    ensures Filled(cap, slots, sent + [p], lo, hi)
  {
  }

  lemma WiredMore(cap: nat, wire: seq<(nat, Slot)>, sent: seq<Packet>, s: Slot, p: Packet)
    requires cap > 0 && |wire| <= |sent| && Wired(cap, wire, sent) && Holds(s, p)
    ensures Wired(cap, wire + [(RingIndex.Slot(|sent|, cap), s)], sent + [p])
  {
  }

  lemma MoveKeepsInv(c: Config, m: Machine, g: Log)
    requires Inv(c, m, g) && m.snd.EMove?
    ensures Inv(c, StepSender(c, m), Record(c, m, g, Sender))
  {
    hide Posted, Filled, Empty, Wired;
    Next(Writes(m, g), c.capacity);
  }

  lemma StoreKeepsSlots(cap: nat, slots: seq<Slot>, sent: seq<Packet>, lo: nat, hi: nat, s: Slot)
    requires cap > 0 && |slots| == cap && lo <= hi < |sent| && hi < lo + cap
    requires Filled(cap, slots, sent, lo, hi) && Empty(cap, slots, hi, lo + cap) && Holds(s, sent[hi])
    ensures slots[RingIndex.Slot(hi, cap)].len == 0
    ensures var slots' := slots[RingIndex.Slot(hi, cap) := s];
            Filled(cap, slots', sent, lo, hi + 1) && Empty(cap, slots', hi + 1, lo + cap)
  {
    forall k | lo <= k < lo + cap && k != hi
      ensures RingIndex.Slot(k, cap) != RingIndex.Slot(hi, cap)
    {
      SlotsWithinLap(if k < hi then k else hi, if k < hi then hi else k, cap);
    }
  }

  lemma ClearKeepsSlots(cap: nat, slots: seq<Slot>, sent: seq<Packet>, lo: nat, hi: nat, s: Slot)
    requires cap > 0 && |slots| == cap && lo < hi <= |sent| && hi <= lo + cap
    requires Filled(cap, slots, sent, lo, hi) && Empty(cap, slots, hi, lo + cap) && s.len == 0
    ensures var slots' := slots[RingIndex.Slot(lo, cap) := s];
            Filled(cap, slots', sent, lo + 1, hi) && Empty(cap, slots', hi, lo + 1 + cap)
  {
    forall k | lo < k <= lo + cap
      ensures RingIndex.Slot(k, cap) == RingIndex.Slot(lo, cap) <==> k == lo + cap
    {
      SlotsWithinLap(lo, k, cap);
    }
  }

  lemma WiredTail(cap: nat, wire: seq<(nat, Slot)>, sent: seq<Packet>)
    requires cap > 0 && 0 < |wire| <= |sent| && Wired(cap, wire, sent)
    ensures Wired(cap, wire[1..], sent)
    ensures wire[0].0 == RingIndex.Slot(|sent| - |wire|, cap) && Holds(wire[0].1, sent[|sent| - |wire|])
  {
  }

  lemma ReceiverUnmoved(c: Config, m: Machine, m': Machine, g: Log)
    requires c.Valid() && Indexed(c, m, g) && Taken(m, g)
    requires m'.snd == m.snd && m'.rcv == m.rcv
    requires m'.writeIdx == m.writeIdx && m'.readIdx == m.readIdx && m'.shadow == m.shadow
    ensures Indexed(c, m', g) && Taken(m', g)
  {
  }

  lemma ArrivalKeepsInv(c: Config, m: Machine, g: Log)
    requires Inv(c, m, g) && m.wire != []
    ensures Inv(c, Step(c, m, DeliverSlot), Record(c, m, g, DeliverSlot))
    ensures m.slots[m.wire[0].0].len == 0
  {
    hide Posted, Filled, Empty, Wired, OnBridge, Indexed, Taken;
    ReceiverUnmoved(c, m, Step(c, m, DeliverSlot), g);
    WiredTail(c.capacity, m.wire, g.sent);
    StoreKeepsSlots(c.capacity, m.slots, g.sent, Cleared(m, g), Arrived(m, g), m.wire[0].1);
  }

  lemma IndexKeepsInv(c: Config, m: Machine, g: Log)
    requires Inv(c, m, g) && m.posted != []
    ensures Inv(c, Step(c, m, DeliverIndex), Record(c, m, g, DeliverIndex))
  {
    hide Filled, Empty, Wired;
  }

  lemma PollKeepsInv(c: Config, m: Machine, g: Log)
    requires Inv(c, m, g) && m.rcv.QPoll?
    ensures Inv(c, StepReceiver(c, m), Record(c, m, g, Receiver))
  {
    hide Posted, Wired, OnBridge, Filled, Empty;
    SlotTells(c, m, g);
  }

  /** The slot at the read index is empty exactly when no packet has arrived in it. */
  lemma SlotTells(c: Config, m: Machine, g: Log)
    requires Inv(c, m, g) && m.rcv.QPoll?
    ensures m.slots[m.readIdx].len == 0 <==> |g.taken| == Arrived(m, g)
    ensures |g.taken| < Arrived(m, g) ==> Holds(m.slots[m.readIdx], g.sent[|g.taken|])
  {
    hide Posted, Wired, OnBridge, Taken;
    if |g.taken| == Arrived(m, g) {
      assert m.slots[RingIndex.Slot(|g.taken|, c.capacity)].len == 0;
    } else {
      assert Holds(m.slots[RingIndex.Slot(|g.taken|, c.capacity)], g.sent[|g.taken|]);
    }
  }

  lemma PostKeepsInv(c: Config, m: Machine, g: Log)
    requires Inv(c, m, g) && (m.rcv.QGot? || m.rcv.QCount?)
    ensures Inv(c, StepReceiver(c, m), Record(c, m, g, Receiver))
  {
    hide Posted, Filled, Empty, Wired, Due;
    PostedMore(c.capacity, m.posted, g.counts, g.seen, Reads(m, g));
  }

  lemma PostedMore(cap: nat, posted: seq<nat>, counts: seq<nat>, lo: nat, hi: nat)
    requires cap > 0 && Posted(cap, posted, counts, lo, hi) && lo <= hi
    ensures Posted(cap, posted + [RingIndex.Slot(hi, cap)], counts + [hi], lo, hi)
  {
  }

  lemma ClearKeepsInv(c: Config, m: Machine, g: Log)
    requires Inv(c, m, g) && m.rcv.QClear?
    ensures Inv(c, StepReceiver(c, m), Record(c, m, g, Receiver))
  {
    hide Posted, Filled, Empty, Wired;
    ClearKeepsSlots(c.capacity, m.slots, g.sent, Cleared(m, g), Arrived(m, g),
                    m.slots[m.readIdx].(len := 0));
  }

  lemma AdvanceKeepsInv(c: Config, m: Machine, g: Log)
    requires Inv(c, m, g) && m.rcv.QMove?
    ensures Inv(c, StepReceiver(c, m), Record(c, m, g, Receiver))
  {
    hide Filled, Empty, Wired;
    Next(Reads(m, g), c.capacity);
  }

  lemma StepKeepsInv(c: Config, m: Machine, g: Log, l: Label)
    requires Inv(c, m, g)
    ensures Inv(c, Step(c, m, l), Record(c, m, g, l))
  {
    hide Posted, Filled, Empty, Wired;
    match l
    case Send(_) =>
    case Sender =>
      if m.snd.ESpin? || m.snd.EFlag? {
        SpinKeepsInv(c, m, g);
      } else if m.snd.EWrite? {
        WriteKeepsInv(c, m, g);
      } else if m.snd.EMove? {
        MoveKeepsInv(c, m, g);
      }
    case DeliverSlot => if m.wire != [] { ArrivalKeepsInv(c, m, g); }
    case DeliverIndex => if m.posted != [] { IndexKeepsInv(c, m, g); }
    case Receiver => ReceiverKeepsInv(c, m, g);
    case Forwarded =>
  }

  lemma ReceiverKeepsInv(c: Config, m: Machine, g: Log)
    requires Inv(c, m, g)
    ensures Inv(c, StepReceiver(c, m), Record(c, m, g, Receiver))
  {
    hide Posted, Filled, Empty, Wired, Ordered, Indexed, Taken;
    match m.rcv
    case QPoll => PollKeepsInv(c, m, g);
    case QGot(_, _) => PostKeepsInv(c, m, g);
    case QHold(_) =>
    case QClear => ClearKeepsInv(c, m, g);
    case QMove => AdvanceKeepsInv(c, m, g);
    case QCount => PostKeepsInv(c, m, g);
  }

  // ---------- whole runs ----------

  ghost predicate Init(c: Config, m: Machine) {
    && Typed(c, m) && m.writeIdx == 0 && m.readIdx == 0 && m.shadow == 0 && m.counter == 0
    && m.wire == [] && m.posted == [] && m.snd == EIdle && m.rcv == QPoll
    && (forall i :: 0 <= i < |m.slots| ==> m.slots[i].len == 0)
  }

  const EMPTY_LOG := Log([], [], 0, [])

  datatype Trace = Trace(m: Machine, g: Log)

  function Extend(c: Config, t: Trace, l: Label): (t': Trace)
    requires Typed(c, t.m)
    ensures Typed(c, t'.m)
  {
    Trace(Step(c, t.m, l), Record(c, t.m, t.g, l))
  }

  function Run(c: Config, m0: Machine, schedule: seq<Label>): (t: Trace)
    requires Typed(c, m0)
    ensures Typed(c, t.m)
  {
    if schedule == [] then Trace(m0, EMPTY_LOG)
    else Extend(c, Run(c, m0, schedule[..|schedule| - 1]), schedule[|schedule| - 1])
  }

  lemma InitIsInv(c: Config, m: Machine)
    requires Init(c, m)
    ensures Inv(c, m, EMPTY_LOG)
  {
  }

  /** The lag of the last index sent back: what the receiver will have told the sender. */
  function LastTold(g: Log): nat {
    if g.counts == [] then g.seen else g.counts[|g.counts| - 1]
  }

  /** The last multiple of the interval has been told, unless the receiver is about to do so. */
  predicate Told(c: Config, m: Machine, g: Log)
    requires c.Valid()
  {
    var r := if m.rcv.QCount? && |g.taken| > 0 then |g.taken| - 1 else Reads(m, g);
    r - RingIndex.Slot(r, c.interval) <= LastTold(g)
  }

  lemma StepKeepsTold(c: Config, m: Machine, g: Log, l: Label)
    requires Inv(c, m, g) && Told(c, m, g)
    ensures Told(c, Step(c, m, l), Record(c, m, g, l))
  {
    hide Filled, Empty, Wired, OnBridge, Taken, Indexed, Due, AsksIndex;
    if l.Receiver? {
      ReceiverKeepsTold(c, m, g);
    }
  }

  lemma ReceiverKeepsTold(c: Config, m: Machine, g: Log)
    requires Inv(c, m, g) && Told(c, m, g)
    ensures Told(c, StepReceiver(c, m), Record(c, m, g, Receiver))
  {
    hide Filled, Empty, Wired, OnBridge, Taken, Indexed, Due, AsksIndex;
    if m.rcv.QCount? {
      DueAtMultiples(c, |g.taken|);
    }
  }

  lemma DueAtMultiples(c: Config, n: nat)
    requires c.Valid()
    ensures Due(c, n) <==> RingIndex.Slot(n, c.interval) == 0
    ensures n > 0 && !Due(c, n) ==> RingIndex.Slot(n, c.interval) == RingIndex.Slot(n - 1, c.interval) + 1
  {
    SlotIsRemainder(n, c.interval);
    if n > 0 {
      Next(n - 1, c.interval);
    }
  }

  lemma {:induction false} RunKeepsInv(c: Config, m0: Machine, schedule: seq<Label>)
    requires Init(c, m0)
    ensures var t := Run(c, m0, schedule); Inv(c, t.m, t.g) && Told(c, t.m, t.g)
  {
    InitIsInv(c, m0);
    if schedule != [] {
      hide Inv, Told, Step, Record;
      var t := Run(c, m0, schedule[..|schedule| - 1]);
      RunKeepsInv(c, m0, schedule[..|schedule| - 1]);
      StepKeepsInv(c, t.m, t.g, schedule[|schedule| - 1]);
      StepKeepsTold(c, t.m, t.g, schedule[|schedule| - 1]);
    }
  }

  /** Every packet is taken exactly once and in order, whatever the delays. */
  lemma TakenInOrder(c: Config, m0: Machine, schedule: seq<Label>)
    requires Init(c, m0)
    ensures var g := Run(c, m0, schedule).g; g.taken <= g.sent
  {
    RunKeepsInv(c, m0, schedule);
  }

  /** The stale shadow never lets the sender run into packets that are still to be read. */
  lemma ShadowIsSafe(c: Config, m0: Machine, schedule: seq<Label>)
    requires Init(c, m0)
    ensures var t := Run(c, m0, schedule);
            && t.g.seen <= Reads(t.m, t.g) <= |t.g.sent| <= t.g.seen + c.capacity - 1
            && (t.m.wire != [] ==> t.m.wire[0].0 < c.capacity && t.m.slots[t.m.wire[0].0].len == 0)
  {
    hide Filled, Empty, Posted, Indexed;
    RunKeepsInv(c, m0, schedule);
    var t := Run(c, m0, schedule);
    if t.m.wire != [] {
      ArrivalKeepsInv(c, t.m, t.g);
    }
  }

  /** A length field is non-zero exactly when its slot holds an arrived packet not yet cleared. */
  lemma LengthMarksUnread(c: Config, m0: Machine, schedule: seq<Label>, i: nat)
    requires Init(c, m0) && i < c.capacity
    ensures var t := Run(c, m0, schedule);
            t.m.slots[i].len != 0 <==>
            exists k :: Cleared(t.m, t.g) <= k < Arrived(t.m, t.g) && RingIndex.Slot(k, c.capacity) == i
  {
    RunKeepsInv(c, m0, schedule);
    var t := Run(c, m0, schedule);
    var k := CountOf(Cleared(t.m, t.g), c.capacity, i);
    if exists j :: Cleared(t.m, t.g) <= j < Arrived(t.m, t.g) && RingIndex.Slot(j, c.capacity) == i {
      var j :| Cleared(t.m, t.g) <= j < Arrived(t.m, t.g) && RingIndex.Slot(j, c.capacity) == i;
      assert Holds(t.m.slots[RingIndex.Slot(j, c.capacity)], t.g.sent[j]);
    }
  }

  /** Each slot is used by one count of every lap. */
  lemma CountOf(lo: nat, cap: nat, i: nat) returns (k: nat)
    requires i < cap
    ensures lo <= k < lo + cap && RingIndex.Slot(k, cap) == i
    decreases lo
  {
    if lo == 0 {
      k := i;
    } else {
      k := CountOf(lo - 1, cap, i);
      if k == lo - 1 {
        SlotsWithinLap(k, k + cap, cap);
        k := k + cap;
      }
    }
  }

  predicate Blocked(c: Config, m: Machine)
    requires c.Valid()
  {
    m.snd.ESpin? && Wrap(m.writeIdx, c.capacity) == m.shadow
  }

  /** Nothing is on the bridge and the receiver has read all there is. */
  predicate Drained(c: Config, m: Machine)
    requires Typed(c, m)
  {
    m.wire == [] && m.posted == [] && m.rcv.QPoll? && m.slots[m.readIdx].len == 0
  }

  /**
   * The last read index that the receiver has sent back is never ahead of the read index and less
   * than the interval behind it, except while the receiver is about to send the next one back.
   * When none is on the bridge, that is the sender's shadow.
   */
  lemma ToldIndexLagsLittle(c: Config, m0: Machine, schedule: seq<Label>)
    requires Init(c, m0)
    ensures var t := Run(c, m0, schedule);
            && LastTold(t.g) <= Reads(t.m, t.g) <= LastTold(t.g) + c.interval
            && (!t.m.rcv.QCount? ==> Reads(t.m, t.g) < LastTold(t.g) + c.interval)
            && (t.m.posted == [] ==> LastTold(t.g) == t.g.seen && t.m.shadow == RingIndex.Slot(t.g.seen, c.capacity))
  {
    RunKeepsInv(c, m0, schedule);
    var t := Run(c, m0, schedule);
    hide Filled, Empty, Wired, Taken;
    if t.g.counts != [] {
      assert t.g.counts[|t.g.counts| - 1] <= Reads(t.m, t.g);
    }
  }

  /** A blocked sender has a packet or an index on its way, provided the ring exceeds the interval. */
  lemma NoStuckSender(c: Config, m0: Machine, schedule: seq<Label>)
    requires Init(c, m0) && c.capacity > c.interval
    ensures var m := Run(c, m0, schedule).m; !(Blocked(c, m) && Drained(c, m))
  {
    RunKeepsInv(c, m0, schedule);
    var t := Run(c, m0, schedule);
    if Blocked(c, t.m) && Drained(c, t.m) {
      BlockedMeansFull(c, t.m, t.g);
      DrainedMeansAllTaken(c, t.m, t.g);
      assert false;
    }
  }

  lemma BlockedMeansFull(c: Config, m: Machine, g: Log)
    requires Inv(c, m, g) && Blocked(c, m)
    ensures |g.sent| == g.seen + c.capacity - 1
  {
    hide Posted, Filled, Empty, Wired, OnBridge, Taken;
    Next(|g.sent|, c.capacity);
    SlotsWithinLap(g.seen, |g.sent| + 1, c.capacity);
  }

  lemma DrainedMeansAllTaken(c: Config, m: Machine, g: Log)
    requires Inv(c, m, g) && Drained(c, m)
    ensures g.taken == g.sent && g.counts == []
  {
  }

  /** A blocked sender with a drained ring stays blocked whatever happens. */
  lemma StuckForGood(c: Config, m: Machine, l: Label)
    requires Typed(c, m) && Blocked(c, m) && Drained(c, m)
    ensures Step(c, m, l) == m
  {
  }

  /** After `k` packets that were each read at once, before any index went back. */
  predicate Idle(c: Config, m: Machine, k: nat) {
    && Typed(c, m) && k < c.capacity
    && m.writeIdx == k && m.readIdx == k && m.shadow == 0 && m.counter == k
    && m.wire == [] && m.posted == [] && m.snd == EIdle && m.rcv == QPoll
    && (forall i :: 0 <= i < |m.slots| ==> m.slots[i].len == 0)
  }

  ghost predicate Reachable(c: Config, m0: Machine, m: Machine)
    requires Typed(c, m0)
  {
    exists schedule :: Run(c, m0, schedule).m == m
  }

  lemma OneMore(c: Config, m0: Machine, m: Machine, l: Label)
    requires Typed(c, m0) && Typed(c, m) && Reachable(c, m0, m)
    ensures Reachable(c, m0, Step(c, m, l))
  {
    var schedule :| Run(c, m0, schedule).m == m;
    assert (schedule + [l])[..|schedule|] == schedule;
    assert Run(c, m0, schedule + [l]).m == Step(c, m, l);
  }

  /** The same memory with one more packet in it, not yet looked at. */
  function WithPacket(m: Machine, k: nat, p: Packet): Machine
    requires k < |m.slots|
  {
    m.(writeIdx := k + 1, slots := m.slots[k := Slot(p.MsgLen(), false, p)])
  }

  lemma NotYetAMultiple(c: Config, n: nat)
    requires c.Valid() && n > 0
    ensures n < c.pushEvery ==> !AsksIndex(c, n, 0)
    ensures n < c.interval ==> !Due(c, n)
  {
    if n < c.pushEvery {
      DivisionIsUnique(n, 0, n, c.pushEvery);
    }
    if n < c.interval {
      DivisionIsUnique(n, 0, n, c.interval);
    }
  }

  lemma SendSteps(c: Config, m: Machine, k: nat, p: Packet)
    requires Idle(c, m, k) && k + 1 < c.capacity <= c.pushEvery
    ensures Step(c, m.(snd := ESpin(p)), Sender) == m.(snd := EFlag(p))
    ensures Step(c, m.(snd := EFlag(p)), Sender) == m.(snd := EWrite(p, false))
  {
    hide OnBridge, AsksIndex;
    NotYetAMultiple(c, k + 1);
  }

  lemma WriteSteps(c: Config, m: Machine, k: nat, p: Packet)
    requires Idle(c, m, k) && k + 1 < c.capacity
    ensures var w := m.(wire := [(k, Slot(p.MsgLen(), false, p))]);
            && Step(c, m.(snd := EWrite(p, false)), Sender) == w.(snd := EMove)
            && Step(c, w.(snd := EMove), Sender) == w.(writeIdx := k + 1)
            && Step(c, w.(writeIdx := k + 1), DeliverSlot) == WithPacket(m, k, p)
  {
  }

  lemma SendOne(c: Config, m0: Machine, m: Machine, k: nat, p: Packet)
    requires Typed(c, m0) && Reachable(c, m0, m)
    requires Idle(c, m, k) && k + 1 < c.capacity <= c.pushEvery
    ensures Reachable(c, m0, WithPacket(m, k, p))
  {
    hide Reachable, Idle, AsksIndex, Due, StepReceiver;
    SendSteps(c, m, k, p);
    WriteSteps(c, m, k, p);
    var w := m.(wire := [(k, Slot(p.MsgLen(), false, p))]);
    OneMore(c, m0, m, Send(p));
    OneMore(c, m0, m.(snd := ESpin(p)), Sender);
    OneMore(c, m0, m.(snd := EFlag(p)), Sender);
    OneMore(c, m0, m.(snd := EWrite(p, false)), Sender);
    OneMore(c, m0, w.(snd := EMove), Sender);
    OneMore(c, m0, w.(writeIdx := k + 1), DeliverSlot);
  }

  /** The memory after the packet was read, its length field cleared. */
  function Reread(m: Machine, k: nat, p: Packet): Machine
    requires k < |m.slots|
  {
    m.(writeIdx := k + 1, readIdx := k + 1, counter := k + 1, slots := m.slots[k := Slot(0, false, p)])
  }

  lemma PollSteps(c: Config, m: Machine, k: nat, p: Packet)
    requires Idle(c, m, k) && k + 1 < c.capacity
    ensures var n := WithPacket(m, k, p).(counter := k + 1);
            && Typed(c, n) && Step(c, WithPacket(m, k, p), Receiver) == n.(rcv := QGot(false, p))
            && Step(c, n.(rcv := QGot(false, p)), Receiver) == n.(rcv := QHold(p))
            && Step(c, n.(rcv := QHold(p)), Forwarded) == n.(rcv := QClear)
  {
    hide OnBridge;
  }

  lemma ReadSteps(c: Config, m: Machine, k: nat, p: Packet)
    requires Idle(c, m, k) && k + 1 < c.capacity <= c.interval
    ensures var n, r := WithPacket(m, k, p).(counter := k + 1), Reread(m, k, p);
            && Typed(c, n) && Step(c, n.(rcv := QClear), Receiver) == r.(rcv := QMove, readIdx := k)
            && Step(c, r.(rcv := QMove, readIdx := k), Receiver) == r.(rcv := QCount)
            && Step(c, r.(rcv := QCount), Receiver) == r
            && Idle(c, r, k + 1)
  {
    hide OnBridge, Due;
    NotYetAMultiple(c, k + 1);
  }

  lemma ReadOne(c: Config, m0: Machine, m: Machine, k: nat, p: Packet)
    requires Typed(c, m0) && Idle(c, m, k) && k + 1 < c.capacity <= c.interval
    requires Reachable(c, m0, WithPacket(m, k, p))
    ensures Reachable(c, m0, Reread(m, k, p)) && Idle(c, Reread(m, k, p), k + 1)
  {
    hide Reachable, AsksIndex, Due, StepSender, StepReceiver;
    PollSteps(c, m, k, p);
    ReadSteps(c, m, k, p);
    var n, r := WithPacket(m, k, p).(counter := k + 1), Reread(m, k, p);
    OneMore(c, m0, WithPacket(m, k, p), Receiver);
    OneMore(c, m0, n.(rcv := QGot(false, p)), Receiver);
    OneMore(c, m0, n.(rcv := QHold(p)), Forwarded);
    OneMore(c, m0, n.(rcv := QClear), Receiver);
    OneMore(c, m0, r.(rcv := QMove, readIdx := k), Receiver);
    OneMore(c, m0, r.(rcv := QCount), Receiver);
  }

  lemma {:induction false} IdleReachable(c: Config, m0: Machine, p: Packet, k: nat) returns (m: Machine)
    requires Init(c, m0) && k < c.capacity <= c.interval <= c.pushEvery
    ensures Reachable(c, m0, m) && Idle(c, m, k)
  {
    if k == 0 {
      m := m0;
      assert Run(c, m0, []).m == m0;
    } else {
      m := IdleReachable(c, m0, p, k - 1);
      SendOne(c, m0, m, k - 1, p);
      ReadOne(c, m0, m, k - 1, p);
      m := Reread(m, k - 1, p);
    }
  }

  /**
   * The bound on the capacity is exact: a sender can get stuck for good, with all its packets
   * read, if and only if the ring is no longer than the interval.
   */
  lemma StuckExactlyWhenSmall(c: Config, m0: Machine, p: Packet)
    requires Init(c, m0) && c.interval <= c.pushEvery
    ensures (exists m :: Reachable(c, m0, m) && Typed(c, m) && Blocked(c, m) && Drained(c, m))
            <==> c.capacity <= c.interval
  {
    if c.capacity <= c.interval {
      var m := IdleReachable(c, m0, p, c.capacity - 1);
      OneMore(c, m0, m, Send(p));
      var m' := Step(c, m, Send(p));
      assert Reachable(c, m0, m') && Blocked(c, m') && Drained(c, m');
    } else {
      forall m | Reachable(c, m0, m) && Typed(c, m)
        ensures !(Blocked(c, m) && Drained(c, m))
      {
        var schedule :| Run(c, m0, schedule).m == m;
        NoStuckSender(c, m0, schedule);
      }
    }
  }

  // ---------- what the proxies see ----------

  lemma SendAccepts(c: Config, t: Trace, p: Packet)
    requires Inv(c, t.m, t.g) && t.m.snd.EIdle?
    ensures var t' := Extend(c, t, Send(p));
            Inv(c, t'.m, t'.g) && t'.g == t.g && t'.m.rcv == t.m.rcv && t'.m.snd == ESpin(p)
  {
    hide Inv, Typed;
    StepKeepsInv(c, t.m, t.g, Send(p));
    TypedFromInv(c, t.m, t.g);
  }

  /** A packet is written once, after which the sender only advances its index. */
  lemma SenderStep(c: Config, t: Trace)
    requires Inv(c, t.m, t.g)
    ensures var t' := Extend(c, t, Sender);
            && Inv(c, t'.m, t'.g) && t'.g.taken == t.g.taken && t'.m.rcv == t.m.rcv
            && (if t.m.snd.EWrite? then t'.g.sent == t.g.sent + [t.m.snd.p] && t'.m.snd.EMove?
                else
                  && t'.g.sent == t.g.sent
                  && (t'.m.snd.EIdle? || t'.m.snd.ESpin? || t'.m.snd.EFlag? || t'.m.snd.EWrite?))
            && (t'.m.snd.ESpin? || t'.m.snd.EFlag? || t'.m.snd.EWrite? ==>
                  (t.m.snd.ESpin? || t.m.snd.EFlag?) && t'.m.snd.p == t.m.snd.p)
            && (t.m.snd.ESpin? || t.m.snd.EFlag? ==> t'.m.snd.ESpin? || t'.m.snd.EFlag? || t'.m.snd.EWrite?)
  {
    hide Inv, Typed, AsksIndex;
    StepKeepsInv(c, t.m, t.g, Sender);
    TypedFromInv(c, t.m, t.g);
  }

  lemma DeliveryStep(c: Config, t: Trace, l: Label)
    requires Inv(c, t.m, t.g) && (l.DeliverSlot? || l.DeliverIndex?)
    ensures var t' := Extend(c, t, l);
            && Inv(c, t'.m, t'.g) && t'.g.sent == t.g.sent && t'.g.taken == t.g.taken
            && t'.m.snd == t.m.snd && t'.m.rcv == t.m.rcv
  {
    hide Inv, Typed;
    StepKeepsInv(c, t.m, t.g, l);
    TypedFromInv(c, t.m, t.g);
  }

  /** A packet is taken when, and only when, the receiver comes to have it. */
  lemma ReceiverStep(c: Config, t: Trace)
    requires Inv(c, t.m, t.g)
    ensures var t' := Extend(c, t, Receiver);
            && Inv(c, t'.m, t'.g) && t'.g.sent == t.g.sent && t'.m.snd == t.m.snd
            && (if t.m.rcv.QPoll? && t'.m.rcv.QGot? then t'.g.taken == t.g.taken + [t'.m.rcv.p]
                else t'.g.taken == t.g.taken)
            && (t'.m.rcv.QGot? ==> t.m.rcv.QPoll?)
            && (t.m.rcv.QGot? || t.m.rcv.QHold? ==> t'.m.rcv == QHold(t.m.rcv.p))
            && (t'.m.rcv.QHold? ==> t.m.rcv.QGot? || t.m.rcv.QHold?)
  {
    hide Inv, Typed, Due;
    StepKeepsInv(c, t.m, t.g, Receiver);
    TypedFromInv(c, t.m, t.g);
  }

  lemma ForwardedStep(c: Config, t: Trace)
    requires Inv(c, t.m, t.g) && t.m.rcv.QHold?
    ensures var t' := Extend(c, t, Forwarded);
            Inv(c, t'.m, t'.g) && t'.g == t.g && t'.m.snd == t.m.snd && t'.m.rcv == QClear
  {
    hide Inv, Typed;
    StepKeepsInv(c, t.m, t.g, Forwarded);
    TypedFromInv(c, t.m, t.g);
  }

  lemma TypedFromInv(c: Config, m: Machine, g: Log)
    requires Inv(c, m, g)
    ensures Typed(c, m) && g.taken <= g.sent && |m.slots| > m.readIdx
    ensures m.rcv.QGot? || m.rcv.QHold? ==> |g.taken| > 0 && m.rcv.p == g.taken[|g.taken| - 1]
  {
  }
}
