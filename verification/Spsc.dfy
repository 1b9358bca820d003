/**
 * The lock-free single-producer single-consumer ring, one memory access per step.
 *
 * A push loads the write index, loads the read index and compares, copies the element word by
 * word, and publishes the new write index.  A pop, front or plain pop loads the write index,
 * loads the read index and compares, copies, and (except for front) publishes the new read index.
 * A schedule is any sequence of labels; a label whose actor has nothing to do changes nothing.
 */
module Spsc {
  import opened RingIndex
  import opened BoundedQueue
  import opened Options

  /** `capacity` slots of `words` words each. */
  datatype Config = Config(capacity: nat, words: nat) {
    predicate Valid() { capacity > 0 }
  }

  datatype Producer<W> =
    | PIdle(ok: bool)                       // the result of the last push
    | PStart(x: seq<W>)
    | PLoaded(x: seq<W>, w: nat)
    | PCopy(x: seq<W>, w: nat, k: nat)      // k words already copied

  datatype Op = Pop | Front | PlainPop

  datatype Outcome<W> = Nothing | Failed(op: Op) | Got(op: Op, x: seq<W>)

  datatype Consumer<W> =
    | CIdle(last: Outcome<W>)               // the result of the last operation
    | CStart(op: Op)
    | CLoaded(op: Op, w: nat)               // a snapshot of the write index
    | CCopy(op: Op, r: nat, buf: seq<W>)

  /** Shared memory and the two program counters. */
  datatype Machine<W> = Machine(
    data: seq<seq<W>>, writeIdx: nat, readIdx: nat, prod: Producer<W>, cons: Consumer<W>)

  datatype Label<W> = StartPush(x: seq<W>) | Produce | StartTake(op: Op) | Consume

  /** Every index and buffer has the size that the C types give it. */
  predicate Typed<W>(c: Config, m: Machine<W>) {
    && c.Valid() && |m.data| == c.capacity
    && (forall i :: 0 <= i < |m.data| ==> |m.data[i]| == c.words)
    && m.writeIdx < c.capacity && m.readIdx < c.capacity
    && (!m.prod.PIdle? ==> |m.prod.x| == c.words)
    && (m.prod.PLoaded? ==> m.prod.w < c.capacity)
    && (m.prod.PCopy? ==> m.prod.w < c.capacity && m.prod.k <= c.words)
    && (m.cons.CLoaded? ==> m.cons.w < c.capacity)
    && (m.cons.CCopy? ==> m.cons.r < c.capacity && |m.cons.buf| <= c.words)
  }

  function StepProducer<W>(c: Config, m: Machine<W>): (m': Machine<W>)
    requires Typed(c, m)
    ensures Typed(c, m') && m'.cons == m.cons && m'.readIdx == m.readIdx
  {
    match m.prod
    case PIdle(_) => m
    case PStart(x) => m.(prod := PLoaded(x, m.writeIdx))
    case PLoaded(x, w) =>
      if Increment(w, c.capacity) == m.readIdx then m.(prod := PIdle(false))
      else m.(prod := PCopy(x, w, 0))
    case PCopy(x, w, k) =>
      if k < c.words
      then m.(data := m.data[w := m.data[w][k := x[k]]], prod := PCopy(x, w, k + 1))
      else m.(writeIdx := Increment(w, c.capacity), prod := PIdle(true))
  }

  /** The consumer has nothing left to copy. */
  predicate Copied<W>(c: Config, m: Machine<W>) {
    m.cons.CCopy? && (|m.cons.buf| >= c.words || m.cons.op.PlainPop?)
  }

  function StepConsumer<W>(c: Config, m: Machine<W>): (m': Machine<W>)
    requires Typed(c, m)
    ensures Typed(c, m') && m'.prod == m.prod && m'.writeIdx == m.writeIdx && m'.data == m.data
  {
    match m.cons
    case CIdle(_) => m
    case CStart(op) => m.(cons := CLoaded(op, m.writeIdx))
    case CLoaded(op, w) =>
      if w == m.readIdx then m.(cons := CIdle(Failed(op))) else m.(cons := CCopy(op, m.readIdx, []))
    case CCopy(op, r, buf) =>
      if !Copied(c, m) then m.(cons := CCopy(op, r, buf + [m.data[r][|buf|]]))
      else if op.Front? then m.(cons := CIdle(Got(op, buf)))
      else m.(readIdx := Increment(r, c.capacity), cons := CIdle(Got(op, buf)))
  }

  function Step<W>(c: Config, m: Machine<W>, l: Label<W>): (m': Machine<W>)
    requires Typed(c, m)
    ensures Typed(c, m')
  {
    match l
    case StartPush(x) => if m.prod.PIdle? && |x| == c.words then m.(prod := PStart(x)) else m
    case Produce => StepProducer(c, m)
    case StartTake(op) => if m.cons.CIdle? then m.(cons := CStart(op)) else m
    case Consume => StepConsumer(c, m)
  }

  // ---------- what a step means for the queue ----------

  /** The operation that takes effect in a step: a load decides emptiness, a publication the rest. */
  function Effect<W>(c: Config, m: Machine<W>, l: Label<W>): Option<Event<seq<W>>>
    requires c.Valid()
  {
    if l.Produce? && m.prod.PLoaded? && Increment(m.prod.w, c.capacity) == m.readIdx then
      Some(PushFull(m.prod.x))
    else if l.Produce? && m.prod.PCopy? && m.prod.k >= c.words then Some(PushOk(m.prod.x))
    else if l.Consume? && m.cons.CStart? && m.writeIdx == m.readIdx then Some(SawEmpty)
    else if l.Consume? && Copied(c, m) then
      match m.cons.op
      case Front => Some(FrontOk(m.cons.buf))
      case Pop => Some(PopOk(m.cons.buf))
      case PlainPop => Some(DropOk)
    else None
  }

  /** All elements pushed so far, and how many of them were taken. */
  datatype History<W> = History(pushed: seq<seq<W>>, popped: nat)

  function Record<W>(h: History<W>, e: Option<Event<seq<W>>>): History<W> {
    match e
    case Some(PushOk(x)) => h.(pushed := h.pushed + [x])
    case Some(PopOk(_)) => h.(popped := h.popped + 1)
    case Some(DropOk) => h.(popped := h.popped + 1)
    case _ => h
  }

  // ---------- the invariant ----------

  predicate Counted<W>(c: Config, m: Machine<W>, h: History<W>) {
    && Typed(c, m)
    && h.popped <= |h.pushed| <= h.popped + c.capacity - 1
    && m.writeIdx == Slot(|h.pushed|, c.capacity)
    && m.readIdx == Slot(h.popped, c.capacity)
    && (forall i :: 0 <= i < |h.pushed| ==> |h.pushed[i]| == c.words)
  }

  /** Every unread element is intact in its slot. */
  predicate Stored<W(==)>(c: Config, m: Machine<W>, h: History<W>)
    requires Counted(c, m, h)
  {
    forall i :: h.popped <= i < |h.pushed| ==> m.data[Slot(i, c.capacity)] == h.pushed[i]
  }

  predicate ProducerInv<W(==)>(c: Config, m: Machine<W>, h: History<W>)
    requires Counted(c, m, h)
  {
    && (m.prod.PLoaded? ==> m.prod.w == m.writeIdx)
    && (m.prod.PCopy? ==>
          && m.prod.w == m.writeIdx
          && |h.pushed| - h.popped < c.capacity - 1
          && m.data[m.prod.w][..m.prod.k] == m.prod.x[..m.prod.k])
  }

  /** A stale write index is still one that the ring passed since the consumer's last element. */
  ghost predicate ConsumerInv<W>(c: Config, m: Machine<W>, h: History<W>)
    requires Counted(c, m, h)
  {
    && (m.cons.CLoaded? ==>
          exists n :: h.popped <= n <= |h.pushed| && m.cons.w == Slot(n, c.capacity))
    && (m.cons.CCopy? ==>
          && m.cons.r == m.readIdx && h.popped < |h.pushed|
          && m.cons.buf == h.pushed[h.popped][..|m.cons.buf|])
  }

  ghost predicate Inv<W>(c: Config, m: Machine<W>, h: History<W>) {
    Counted(c, m, h) && Stored(c, m, h) && ProducerInv(c, m, h) && ConsumerInv(c, m, h)
  }

  // ---------- every step keeps it ----------

  lemma ProducerKeepsInv<W>(c: Config, m: Machine<W>, h: History<W>)
    requires Inv(c, m, h)
    ensures Inv(c, StepProducer(c, m), Record(h, Effect(c, m, Produce)))
  {
    if m.prod.PLoaded? {
      Next(|h.pushed|, c.capacity);
      SlotsWithinLap(h.popped, |h.pushed| + 1, c.capacity);
    } else if m.prod.PCopy? && m.prod.k < c.words {
      forall i | h.popped <= i < |h.pushed|
        ensures Slot(i, c.capacity) != m.writeIdx
      {
        SlotsWithinLap(i, |h.pushed|, c.capacity);
      }
    } else if m.prod.PCopy? {
      PublishKeepsInv(c, m, h);
    }
  }

  lemma PublishKeepsInv<W>(c: Config, m: Machine<W>, h: History<W>)
    requires Inv(c, m, h) && m.prod.PCopy? && m.prod.k == c.words
    ensures Inv(c, StepProducer(c, m), Record(h, Effect(c, m, Produce)))
  {
    Next(|h.pushed|, c.capacity);
    assert m.data[m.writeIdx] == m.data[m.writeIdx][..c.words] == m.prod.x[..c.words] == m.prod.x;
    if m.cons.CLoaded? {
      var n :| h.popped <= n <= |h.pushed| && m.cons.w == Slot(n, c.capacity);
      assert n <= |Record(h, Effect(c, m, Produce)).pushed|;
    }
  }

  lemma ConsumerKeepsInv<W>(c: Config, m: Machine<W>, h: History<W>)
    requires Inv(c, m, h)
    ensures Inv(c, StepConsumer(c, m), Record(h, Effect(c, m, Consume)))
  {
    if m.cons.CStart? {
      hide Stored;
      StoredStays(c, m, StepConsumer(c, m), h, h);
      assert StepConsumer(c, m).cons.w == Slot(|h.pushed|, c.capacity);
    } else if m.cons.CLoaded? {
      hide Stored;
      StoredStays(c, m, StepConsumer(c, m), h, h);
      var n :| h.popped <= n <= |h.pushed| && m.cons.w == Slot(n, c.capacity);
      SlotsWithinLap(h.popped, n, c.capacity);
    } else if Copied(c, m) {
      FinishKeepsInv(c, m, h);
    } else if m.cons.CCopy? {
      assert m.data[m.cons.r] == h.pushed[h.popped];
    }
  }

  lemma FinishKeepsInv<W>(c: Config, m: Machine<W>, h: History<W>)
    requires Inv(c, m, h) && Copied(c, m)
    ensures Inv(c, StepConsumer(c, m), Record(h, Effect(c, m, Consume)))
  {
    hide Stored;
    Next(h.popped, c.capacity);
    StoredStays(c, m, StepConsumer(c, m), h, Record(h, Effect(c, m, Consume)));
  }

  lemma StoredStays<W>(c: Config, m: Machine<W>, m': Machine<W>, h: History<W>, h': History<W>)
    requires Counted(c, m, h) && Counted(c, m', h') && Stored(c, m, h)
    requires m'.data == m.data && h'.pushed == h.pushed && h.popped <= h'.popped
    ensures Stored(c, m', h')
  {
  }

  lemma StepKeepsInv<W>(c: Config, m: Machine<W>, h: History<W>, l: Label<W>)
    requires Inv(c, m, h)
    ensures Inv(c, Step(c, m, l), Record(h, Effect(c, m, l)))
  {
    match l
    case StartPush(_) =>
    case Produce => ProducerKeepsInv(c, m, h);
    case StartTake(_) =>
    case Consume => ConsumerKeepsInv(c, m, h);
  }

  /** The indices differ exactly when the ring holds something. */
  lemma IndicesTellEmpty<W>(c: Config, m: Machine<W>, h: History<W>)
    requires Inv(c, m, h)
    ensures m.writeIdx == m.readIdx <==> h.popped == |h.pushed|
  {
    SlotsWithinLap(h.popped, |h.pushed|, c.capacity);
  }

  /** What an operation of the consumer returns, and when. */
  lemma TakeOutcome<W>(c: Config, m: Machine<W>, h: History<W>)
    requires Inv(c, m, h) && !m.cons.CIdle?
    ensures var last, h' := StepConsumer(c, m).cons, Record(h, Effect(c, m, Consume));
            if last.CIdle? && last.last.Got? then
              && m.cons.CCopy? && last.last.op == m.cons.op && h.popped < |h.pushed|
              && (!m.cons.op.PlainPop? ==> last.last.x == h.pushed[h.popped])
              && h' == (if m.cons.op.Front? then h else h.(popped := h.popped + 1))
            else
              && h' == h
              && (last.CIdle? ==> last.last == Failed(m.cons.op) && EmptyPending(m))
              && (!last.CIdle? ==> last.op == m.cons.op)
  {
  }

  /** What is in the ring, oldest first. */
  function Queue<W>(h: History<W>): seq<seq<W>>
    requires h.popped <= |h.pushed|
  {
    h.pushed[h.popped..]
  }

  /** Each effect is what a bounded queue would do, with the result that the actor computed. */
  lemma EffectIsLegal<W>(c: Config, m: Machine<W>, h: History<W>, l: Label<W>)
    requires Inv(c, m, h) && Effect(c, m, l).Some?
    ensures var e, h' := Effect(c, m, l), Record(h, Effect(c, m, l));
            h'.popped <= |h'.pushed| && Apply(c.capacity - 1, Queue(h), e.value) == Some(Queue(h'))
  {
    if l.Produce? && m.prod.PLoaded? {
      Next(|h.pushed|, c.capacity);
      SlotsWithinLap(h.popped, |h.pushed| + 1, c.capacity);
    } else if l.Produce? {
      assert Queue(h) + [m.prod.x] == (h.pushed + [m.prod.x])[h.popped..];
    } else if m.cons.CStart? {
      SlotsWithinLap(h.popped, |h.pushed|, c.capacity);
    } else {
      assert h.pushed[h.popped][..c.words] == h.pushed[h.popped];
      assert Queue(h)[1..] == h.pushed[h.popped + 1..];
    }
  }

  // ---------- whole runs ----------

  /** What the two threads last asked for. */
  datatype Calls<W> = Calls(arg: seq<W>, op: Op)

  function Called<W>(c: Config, k: Calls<W>, m: Machine<W>, l: Label<W>): Calls<W> {
    match l
    case StartPush(x) => if m.prod.PIdle? && |x| == c.words then k.(arg := x) else k
    case StartTake(op) => if m.cons.CIdle? then k.(op := op) else k
    case _ => k
  }

  /**
   * The operation that returns to its caller in a step, with the result that the thread finds
   * when it is idle again; what the operation was is what the caller asked for.
   */
  function Answer<W>(k: Calls<W>, m: Machine<W>, m': Machine<W>): Option<Event<seq<W>>> {
    if !m.prod.PIdle? && m'.prod.PIdle? then
      Some(if m'.prod.ok then PushOk(k.arg) else PushFull(k.arg))
    else if !m.cons.CIdle? && m'.cons.CIdle? then
      match m'.cons.last
      case Nothing => None
      case Failed(_) => Some(SawEmpty)
      case Got(_, x) => Some(match k.op case Pop => PopOk(x) case Front => FrontOk(x) case PlainPop => DropOk)
    else None
  }

  /** A run: the machine, its history, and the operations in the order they took effect and returned. */
  datatype Trace<W> = Trace(
    m: Machine<W>, h: History<W>, log: seq<Event<seq<W>>>, calls: Calls<W>, answers: seq<Event<seq<W>>>)

  ghost predicate Init<W>(c: Config, m: Machine<W>) {
    && Typed(c, m) && m.writeIdx == 0 && m.readIdx == 0
    && m.prod == PIdle(false) && m.cons == CIdle(Nothing)
  }

  function Append<T>(s: seq<T>, x: Option<T>): seq<T> {
    if x.Some? then s + [x.value] else s
  }

  function Extend<W>(c: Config, t: Trace<W>, l: Label<W>): Trace<W>
    requires Typed(c, t.m)
  {
    var m, e := Step(c, t.m, l), Effect(c, t.m, l);
    Trace(m, Record(t.h, e), Append(t.log, e), Called(c, t.calls, t.m, l), Append(t.answers, Answer(t.calls, t.m, m)))
  }

  function Run<W>(c: Config, m0: Machine<W>, schedule: seq<Label<W>>): (t: Trace<W>)
    requires Typed(c, m0)
    ensures Typed(c, t.m)
  {
    if schedule == [] then Trace(m0, History([], 0), [], Calls([], Pop), [])
    else Extend(c, Run(c, m0, schedule[..|schedule| - 1]), schedule[|schedule| - 1])
  }

  /** The consumer has loaded a write index that will make it report an empty ring. */
  predicate EmptyPending<W>(m: Machine<W>) {
    m.cons.CLoaded? && m.cons.w == m.readIdx
  }

  /** A thread inside an operation is working on what its caller asked for. */
  predicate InCall<W(==)>(k: Calls<W>, m: Machine<W>) {
    && (!m.prod.PIdle? ==> m.prod.x == k.arg)
    && (!m.cons.CIdle? ==> m.cons.op == k.op)
  }

  /**
   * For each thread, the operations that took effect are those that returned, with the same
   * results and in the same order, plus at most the one the consumer is about to return.
   */
  ghost predicate Answered<W>(t: Trace<W>) {
    && InCall(t.calls, t.m)
    && OfThread(true, t.log) == OfThread(true, t.answers)
    && OfThread(false, t.log) ==
       OfThread(false, t.answers) + (if EmptyPending(t.m) then [SawEmpty] else [])
  }

  lemma AppendSplits<T>(log: seq<Event<T>>, e: Option<Event<T>>)
    ensures forall b :: OfThread(b, Append(log, e)) ==
              if e.Some? && ByProducer(e.value) == b then OfThread(b, log) + [e.value] else OfThread(b, log)
  {
    if e.Some? {
      OfThreadMore(true, log, e.value);
      OfThreadMore(false, log, e.value);
    }
  }

  lemma ExtendKeepsAnswered<W>(c: Config, t: Trace<W>, l: Label<W>)
    requires Typed(c, t.m) && Answered(t)
    ensures Answered(Extend(c, t, l))
  {
    hide OfThread, Append, Step, Effect, Answer, Called, InCall;
    var e, a := Effect(c, t.m, l), Answer(t.calls, t.m, Step(c, t.m, l));
    AppendSplits(t.log, e);
    AppendSplits(t.answers, a);
    StepKeepsCall(c, t.calls, t.m, l);
    StepAnswers(c, t.calls, t.m, l);
    var log, answers := OfThread(false, t.log), OfThread(false, t.answers);
    assert answers + [] == answers;
  }

  lemma StepKeepsCall<W>(c: Config, k: Calls<W>, m: Machine<W>, l: Label<W>)
    requires Typed(c, m) && InCall(k, m)
    ensures InCall(Called(c, k, m, l), Step(c, m, l))
  {
  }

  /** The step takes effect and returns with the same result and in the same step. */
  predicate AnswersAtOnce<W(==)>(e: Option<Event<seq<W>>>, a: Option<Event<seq<W>>>, before: bool, after: bool) {
    e == a && before == after && !(before && e.Some? && !ByProducer(e.value))
  }

  /** What takes effect and what returns in one step differ only when the consumer finds the ring empty. */
  lemma StepAnswers<W>(c: Config, k: Calls<W>, m: Machine<W>, l: Label<W>)
    requires Typed(c, m) && InCall(k, m)
    ensures var m' := Step(c, m, l);
            var e, a := Effect(c, m, l), Answer(k, m, m');
            || AnswersAtOnce(e, a, EmptyPending(m), EmptyPending(m'))
            || (e == Some(SawEmpty) && a == None && !EmptyPending(m) && EmptyPending(m'))
            || (e == None && a == Some(SawEmpty) && EmptyPending(m) && !EmptyPending(m'))
  {
  }

  /** What a push returns: true exactly when its element is now queued, false exactly when it was refused. */
  lemma PushOutcome<W>(c: Config, m: Machine<W>, h: History<W>)
    requires Inv(c, m, h) && !m.prod.PIdle?
    ensures var p, h' := StepProducer(c, m).prod, Record(h, Effect(c, m, Produce));
            && (p.PIdle? && p.ok ==> h' == h.(pushed := h.pushed + [m.prod.x]))
            && (p.PIdle? && !p.ok ==> h' == h && |h.pushed| - h.popped == c.capacity - 1)
            && (!p.PIdle? ==> h' == h && p.x == m.prod.x)
  {
    if m.prod.PLoaded? {
      Next(|h.pushed|, c.capacity);
      SlotsWithinLap(h.popped, |h.pushed| + 1, c.capacity);
    }
  }

  ghost predicate Legal<W>(c: Config, t: Trace<W>) {
    && c.Valid() && t.h.popped <= |t.h.pushed|
    && Replay(c.capacity - 1, t.log) == Some(Queue(t.h))
  }

  /**
   * Linearizability: in every run the operations, ordered by when they took effect, are a legal
   * history of one queue bounded by capacity - 1, and each thread got exactly those results.
   */
  lemma {:induction false} Linearizable<W>(c: Config, m0: Machine<W>, schedule: seq<Label<W>>)
    requires Init(c, m0)
    ensures var t := Run(c, m0, schedule); Inv(c, t.m, t.h) && Legal(c, t) && Answered(t)
  {
    if schedule != [] {
      var l := schedule[|schedule| - 1];
      var t := Run(c, m0, schedule[..|schedule| - 1]);
      Linearizable(c, m0, schedule[..|schedule| - 1]);
      StepKeepsInv(c, t.m, t.h, l);
      ExtendKeepsAnswered(c, t, l);
      ExtendKeepsLegal(c, t, l);
    }
  }

  lemma ExtendKeepsLegal<W>(c: Config, t: Trace<W>, l: Label<W>)
    requires Inv(c, t.m, t.h) && Legal(c, t)
    ensures Legal(c, Extend(c, t, l))
  {
    var e := Effect(c, t.m, l);
    if e.Some? {
      EffectIsLegal(c, t.m, t.h, l);
      ReplayMore(c.capacity - 1, t.log, e.value);
    }
  }

  /** While one side is inside a slot, the other side is never inside the same slot. */
  lemma NoSharedSlot<W>(c: Config, m0: Machine<W>, schedule: seq<Label<W>>)
    requires Init(c, m0)
    ensures var m := Run(c, m0, schedule).m;
            m.prod.PCopy? && m.cons.CCopy? ==> m.prod.w != m.cons.r
  {
    Linearizable(c, m0, schedule);
    var t := Run(c, m0, schedule);
    SlotsWithinLap(t.h.popped, |t.h.pushed|, c.capacity);
  }
}
