/**
 * The semaphore-guarded ring with any number of producers and one consumer: the algorithm of
 * `sem_shmring` and of the epoll event queue.  Producers take a free token, then the mutex, copy
 * and advance inside it, and post a filled token after leaving it.  The consumer takes a filled
 * token, copies and advances without the mutex, and gives a free token back.  Every semaphore
 * operation, every copied word and every index update is a step of its own.
 */
module SemRing {
  import opened RingIndex
  import opened Options
  import ShmRing

  /** `capacity` slots of `words` words. */
  datatype Config = Config(capacity: nat, words: nat) {
    predicate Valid() { capacity > 0 }
  }

  datatype Producer<W> =
    | PIdle
    | PWait(x: seq<W>)                 // about to wait for a free token
    | PLock(x: seq<W>)                 // about to wait for the mutex
    | PCopy(x: seq<W>, k: nat)         // inside: k words copied, then the write index moves
    | PUnlock                          // inside: about to post the mutex
    | PPost                            // about to post a filled token

  datatype Consumer<W> =
    | CIdle(got: seq<W>)               // what the last pop returned
    | CWait                            // about to wait for a filled token
    | CCopy(buf: seq<W>)               // copying, then the read index moves
    | CPost(buf: seq<W>)               // about to post a free token

  datatype Machine<W> = Machine(
    data: seq<seq<W>>, writeIdx: nat, readIdx: nat,
    free: nat, filled: nat, mutex: nat,            // the three semaphores
    prods: seq<Producer<W>>, cons: Consumer<W>)

  datatype Label<W> = StartPush(i: nat, x: seq<W>) | Produce(i: nat) | StartPop | Consume

  predicate TypedProducer<W>(c: Config, p: Producer<W>) {
    && (p.PWait? || p.PLock? || p.PCopy? ==> |p.x| == c.words)
    && (p.PCopy? ==> p.k <= c.words)
  }

  predicate Typed<W>(c: Config, m: Machine<W>) {
    && c.Valid() && |m.data| == c.capacity && m.writeIdx < c.capacity && m.readIdx < c.capacity
    && (forall i :: 0 <= i < |m.data| ==> |m.data[i]| == c.words)
    && (forall i :: 0 <= i < |m.prods| ==> TypedProducer(c, m.prods[i]))
    && (m.cons.CCopy? ==> |m.cons.buf| <= c.words)
  }

  function SetProd<W>(m: Machine<W>, i: nat, p: Producer<W>): Machine<W>
    requires i < |m.prods|
  {
    m.(prods := m.prods[i := p])
  }

  /** A wait on a semaphore that is zero changes nothing. */
  function StepProducer<W>(c: Config, m: Machine<W>, i: nat): (m': Machine<W>)
    requires Typed(c, m) && i < |m.prods|
    ensures Typed(c, m')
  {
    match m.prods[i]
    case PIdle => m
    case PWait(x) => if m.free == 0 then m else SetProd(m, i, PLock(x)).(free := m.free - 1)
    case PLock(x) => if m.mutex == 0 then m else SetProd(m, i, PCopy(x, 0)).(mutex := m.mutex - 1)
    case PCopy(x, k) =>
      if k < c.words
      then SetProd(m, i, PCopy(x, k + 1)).(data := m.data[m.writeIdx := m.data[m.writeIdx][k := x[k]]])
      else SetProd(m, i, PUnlock).(writeIdx := Wrap(m.writeIdx, c.capacity))
    case PUnlock => SetProd(m, i, PPost).(mutex := m.mutex + 1)
    case PPost => SetProd(m, i, PIdle).(filled := m.filled + 1)
  }

  function StepConsumer<W>(c: Config, m: Machine<W>): (m': Machine<W>)
    requires Typed(c, m)
    ensures Typed(c, m')
  {
    match m.cons
    case CIdle(_) => m
    case CWait => if m.filled == 0 then m else m.(filled := m.filled - 1, cons := CCopy([]))
    case CCopy(buf) =>
      if |buf| < c.words then m.(cons := CCopy(buf + [m.data[m.readIdx][|buf|]]))
      else m.(readIdx := Wrap(m.readIdx, c.capacity), cons := CPost(buf))
    case CPost(buf) => m.(free := m.free + 1, cons := CIdle(buf))
  }

  function Step<W>(c: Config, m: Machine<W>, l: Label<W>): (m': Machine<W>)
    requires Typed(c, m)
    ensures Typed(c, m')
  {
    match l
    case StartPush(i, x) =>
      if i < |m.prods| && m.prods[i].PIdle? && |x| == c.words then SetProd(m, i, PWait(x)) else m
    case Produce(i) => if i < |m.prods| then StepProducer(c, m, i) else m
    case StartPop => if m.cons.CIdle? then m.(cons := CWait) else m
    case Consume => StepConsumer(c, m)
  }

  // ---------- what a step means ----------

  /** Elements in the order their producers moved the write index, by whom, and elements taken out. */
  datatype Log<W> = Log(pushed: seq<seq<W>>, who: seq<nat>, popped: seq<seq<W>>)

  function Record<W>(c: Config, m: Machine<W>, g: Log<W>, l: Label<W>): Log<W> {
    if l.Produce? && l.i < |m.prods| && m.prods[l.i].PCopy? && m.prods[l.i].k >= c.words
    then g.(pushed := g.pushed + [m.prods[l.i].x], who := g.who + [l.i])
    else if l.Consume? && m.cons.CCopy? && |m.cons.buf| >= c.words
    then g.(popped := g.popped + [m.cons.buf])
    else g
  }

  // ---------- counting producers ----------

  datatype Stage = Holding | Inside | Posting

  /** Holding a free token not yet turned into an element; inside the mutex; not yet posted. */
  function In<W>(p: Producer<W>, s: Stage): nat {
    match s
    case Holding => if p.PLock? || p.PCopy? then 1 else 0
    case Inside => if p.PCopy? || p.PUnlock? then 1 else 0
    case Posting => if p.PUnlock? || p.PPost? then 1 else 0
  }

  function Count<W>(ps: seq<Producer<W>>, s: Stage): nat {
    if ps == [] then 0 else Count(ps[..|ps| - 1], s) + In(ps[|ps| - 1], s)
  }

  lemma {:induction false} CountUpdate<W>(ps: seq<Producer<W>>, s: Stage, i: nat, p: Producer<W>)
    requires i < |ps|
    ensures Count(ps[i := p], s) + In(ps[i], s) == Count(ps, s) + In(p, s)
    decreases |ps|
  {
    var q := ps[..|ps| - 1];
    if i == |q| {
      assert ps[i := p][..|q|] == q;
    } else {
      CountUpdate(q, s, i, p);
      assert ps[i := p][..|q|] == q[i := p];
    }
  }

  lemma {:induction false} CountAtLeast<W>(ps: seq<Producer<W>>, s: Stage, i: nat)
    requires i < |ps|
    ensures Count(ps, s) >= In(ps[i], s)
    decreases |ps|
  {
    if i < |ps| - 1 {
      CountAtLeast(ps[..|ps| - 1], s, i);
    }
  }

  lemma {:induction false} CountTwo<W>(ps: seq<Producer<W>>, s: Stage, i: nat, j: nat)
    requires i < j < |ps|
    ensures Count(ps, s) >= In(ps[i], s) + In(ps[j], s)
    decreases |ps|
  {
    if j < |ps| - 1 {
      CountTwo(ps[..|ps| - 1], s, i, j);
    } else {
      CountAtLeast(ps[..|ps| - 1], s, i);
    }
  }

  // ---------- the invariant ----------

  /** Every free token is in the semaphore, with a producer, in a queued element, or with the consumer. */
  predicate Tokens<W>(c: Config, m: Machine<W>, queued: int) {
    && queued >= 0
    && m.free + Count(m.prods, Holding) + queued + (if m.cons.CPost? then 1 else 0) == c.capacity
    && m.filled + Count(m.prods, Posting) + (if m.cons.CCopy? then 1 else 0) == queued
    && m.mutex + Count(m.prods, Inside) == 1
  }

  predicate Indexed<W>(c: Config, m: Machine<W>, g: Log<W>)
    requires c.Valid()
  {
    && m.writeIdx == Slot(|g.pushed|, c.capacity) && m.readIdx == Slot(|g.popped|, c.capacity)
    && (forall i :: 0 <= i < |g.pushed| ==> |g.pushed[i]| == c.words)
  }

  predicate Stored<W(==)>(cap: nat, data: seq<seq<W>>, pushed: seq<seq<W>>, from: nat)
    requires cap > 0 && |data| == cap
  {
    forall i :: from <= i < |pushed| ==> data[Slot(i, cap)] == pushed[i]
  }

  /** A producer inside the mutex has filled the beginning of the free slot. */
  predicate Copying<W(==)>(prods: seq<Producer<W>>, slot: seq<W>) {
    forall i :: 0 <= i < |prods| && prods[i].PCopy? && prods[i].k <= |slot| && prods[i].k <= |prods[i].x| ==>
      slot[..prods[i].k] == prods[i].x[..prods[i].k]
  }

  predicate Taking<W(==)>(cons: Consumer<W>, g: Log<W>) {
    && g.popped <= g.pushed
    && (cons.CCopy? ==> |g.popped| < |g.pushed| && cons.buf <= g.pushed[|g.popped|])
  }

  ghost predicate Inv<W>(c: Config, m: Machine<W>, g: Log<W>) {
    && Typed(c, m) && Tokens(c, m, |g.pushed| - |g.popped|) && Indexed(c, m, g)
    && Stored(c.capacity, m.data, g.pushed, |g.popped|)
    && Copying(m.prods, m.data[m.writeIdx]) && Taking(m.cons, g)
  }

  // ---------- every step keeps it ----------

  lemma Counts<W>(ps: seq<Producer<W>>, i: nat, p: Producer<W>)
    requires i < |ps|
    ensures forall s :: Count(ps[i := p], s) + In(ps[i], s) == Count(ps, s) + In(p, s)
    ensures forall s :: Count(ps, s) >= In(ps[i], s)
  {
    forall s
      ensures Count(ps[i := p], s) + In(ps[i], s) == Count(ps, s) + In(p, s)
      ensures Count(ps, s) >= In(ps[i], s)
    {
      CountUpdate(ps, s, i, p);
      CountAtLeast(ps, s, i);
    }
  }

  /** Only one producer is ever inside the mutex. */
  lemma MutualExclusion<W>(c: Config, m: Machine<W>, g: Log<W>, i: nat, j: nat)
    requires Inv(c, m, g) && i < |m.prods| && j < |m.prods| && i != j
    ensures In(m.prods[i], Inside) + In(m.prods[j], Inside) <= 1
  {
    CountTwo(m.prods, Inside, if i < j then i else j, if i < j then j else i);
  }

  lemma WaitKeepsInv<W>(c: Config, m: Machine<W>, g: Log<W>, i: nat)
    requires Inv(c, m, g) && i < |m.prods| && !m.prods[i].PCopy?
    ensures Inv(c, StepProducer(c, m, i), Record(c, m, g, Produce(i)))
  {
    hide Stored, Count;
    Counts(m.prods, i, StepProducer(c, m, i).prods[i]);
  }

  /** While a producer is inside, its slot is not one that the consumer may read. */
  lemma SlotIsFree<W>(c: Config, m: Machine<W>, g: Log<W>, i: nat, k: nat)
    requires Inv(c, m, g) && i < |m.prods| && m.prods[i].PCopy?
    requires |g.popped| <= k < |g.pushed|
    ensures Slot(k, c.capacity) != m.writeIdx
  {
    hide Stored, Copying, Typed;
    CountAtLeast(m.prods, Holding, i);
    SlotsWithinLap(k, |g.pushed|, c.capacity);
  }

  lemma CopyInKeepsInv<W>(c: Config, m: Machine<W>, g: Log<W>, i: nat)
    requires Inv(c, m, g) && i < |m.prods| && m.prods[i].PCopy? && m.prods[i].k < c.words
    ensures Inv(c, StepProducer(c, m, i), Record(c, m, g, Produce(i)))
  {
    hide Count;
    Counts(m.prods, i, StepProducer(c, m, i).prods[i]);
    forall k | |g.popped| <= k < |g.pushed|
      ensures Slot(k, c.capacity) != m.writeIdx
    {
      SlotIsFree(c, m, g, i, k);
    }
    forall j | 0 <= j < |m.prods| && j != i
      ensures !m.prods[j].PCopy?
    {
      MutualExclusion(c, m, g, i, j);
    }
  }

  lemma PublishKeepsInv<W>(c: Config, m: Machine<W>, g: Log<W>, i: nat)
    requires Inv(c, m, g) && i < |m.prods| && m.prods[i].PCopy? && m.prods[i].k == c.words
    ensures Inv(c, StepProducer(c, m, i), Record(c, m, g, Produce(i)))
  {
    hide Count;
    Counts(m.prods, i, PUnlock);
    Next(|g.pushed|, c.capacity);
    var x, slot := m.prods[i].x, m.data[m.writeIdx];
    assert slot == slot[..c.words] == x[..c.words] == x;
    forall j | 0 <= j < |m.prods| && j != i
      ensures !m.prods[j].PCopy?
    {
      MutualExclusion(c, m, g, i, j);
    }
  }

  lemma ConsumerKeepsInv<W>(c: Config, m: Machine<W>, g: Log<W>)
    requires Inv(c, m, g)
    ensures Inv(c, StepConsumer(c, m), Record(c, m, g, Consume))
  {
    hide Count, Copying;
    Next(|g.popped|, c.capacity);
    if m.cons.CCopy? {
      assert m.data[m.readIdx] == g.pushed[|g.popped|];
      assert |m.cons.buf| == c.words ==> m.cons.buf == g.pushed[|g.popped|];
    }
  }

  lemma StepKeepsInv<W>(c: Config, m: Machine<W>, g: Log<W>, l: Label<W>)
    requires Inv(c, m, g)
    ensures Inv(c, Step(c, m, l), Record(c, m, g, l))
  {
    match l
    case StartPush(i, x) =>
      if i < |m.prods| && m.prods[i].PIdle? && |x| == c.words {
        hide Stored, Count;
        Counts(m.prods, i, PWait(x));
      }
    case Produce(i) =>
      if i < |m.prods| {
        hide Stored, Count, Tokens, Indexed, Copying, Taking;
        if !m.prods[i].PCopy? {
          WaitKeepsInv(c, m, g, i);
        } else if m.prods[i].k < c.words {
          CopyInKeepsInv(c, m, g, i);
        } else {
          PublishKeepsInv(c, m, g, i);
        }
      }
    case StartPop =>
    case Consume => ConsumerKeepsInv(c, m, g);
  }

  // ---------- whole runs ----------

  ghost predicate Init<W>(c: Config, m: Machine<W>) {
    && Typed(c, m) && m.writeIdx == 0 && m.readIdx == 0
    && m.free == c.capacity && m.filled == 0 && m.mutex == 1
    && (forall i :: 0 <= i < |m.prods| ==> m.prods[i] == PIdle) && m.cons == CIdle([])
  }

  lemma {:induction false} IdleCountsZero<W>(ps: seq<Producer<W>>, s: Stage)
    requires forall i :: 0 <= i < |ps| ==> ps[i] == PIdle
    ensures Count(ps, s) == 0
  {
    if ps != [] {
      IdleCountsZero(ps[..|ps| - 1], s);
    }
  }

  /**
   * What the callers see: the elements that each producer was asked to push, and the elements
   * that the consumer's pops returned.  No step looks at it.
   */
  datatype Calls<W> = Calls(asked: seq<seq<seq<W>>>, returned: seq<seq<W>>)

  function Observe<W>(c: Config, k: Calls<W>, m: Machine<W>, l: Label<W>, m': Machine<W>): Calls<W> {
    if l.StartPush? && l.i < |m.prods| && l.i < |k.asked| && m.prods[l.i].PIdle? && |l.x| == c.words
    then k.(asked := k.asked[l.i := k.asked[l.i] + [l.x]])
    else if !m.cons.CIdle? && m'.cons.CIdle? then k.(returned := k.returned + [m'.cons.got])
    else k
  }

  datatype Trace<W> = Trace(m: Machine<W>, g: Log<W>, calls: Calls<W>)

  function Run<W>(c: Config, m0: Machine<W>, schedule: seq<Label<W>>): (t: Trace<W>)
    requires Typed(c, m0)
    ensures Typed(c, t.m)
  {
    if schedule == [] then Trace(m0, Log([], [], []), Calls(seq(|m0.prods|, _ => []), []))
    else
      var t, l := Run(c, m0, schedule[..|schedule| - 1]), schedule[|schedule| - 1];
      var m := Step(c, t.m, l);
      Trace(m, Record(c, t.m, t.g, l), Observe(c, t.calls, t.m, l, m))
  }

  lemma {:induction false} RunKeepsInv<W>(c: Config, m0: Machine<W>, schedule: seq<Label<W>>)
    requires Init(c, m0)
    ensures var t := Run(c, m0, schedule); Inv(c, t.m, t.g)
  {
    if schedule == [] {
      IdleCountsZero(m0.prods, Holding);
      IdleCountsZero(m0.prods, Inside);
      IdleCountsZero(m0.prods, Posting);
    } else {
      hide Inv, Step, Record;
      var t := Run(c, m0, schedule[..|schedule| - 1]);
      RunKeepsInv(c, m0, schedule[..|schedule| - 1]);
      StepKeepsInv(c, t.m, t.g, schedule[|schedule| - 1]);
    }
  }

  /** Elements come out unchanged in the order in which producers went through the mutex. */
  lemma DeliversInOrder<W>(c: Config, m0: Machine<W>, schedule: seq<Label<W>>)
    requires Init(c, m0)
    ensures var g := Run(c, m0, schedule).g;
            g.popped <= g.pushed && |g.pushed| - |g.popped| <= c.capacity
  {
    RunKeepsInv(c, m0, schedule);
  }

  /** What producer `i` put into the ring, in order. */
  function PushedBy<W>(i: nat, pushed: seq<seq<W>>, who: seq<nat>): seq<seq<W>>
    requires |who| == |pushed|
  {
    if pushed == [] then []
    else
      var n := |pushed| - 1;
      PushedBy(i, pushed[..n], who[..n]) + (if who[n] == i then [pushed[n]] else [])
  }

  /** What a producer was asked to push and has not yet put into the ring. */
  function Unpushed<W>(p: Producer<W>): seq<seq<W>> {
    if p.PWait? || p.PLock? || p.PCopy? then [p.x] else []
  }

  predicate AskedInv<W(==)>(prods: seq<Producer<W>>, g: Log<W>, asked: seq<seq<seq<W>>>) {
    && |g.who| == |g.pushed| && |asked| == |prods|
    && forall i :: 0 <= i < |prods| ==> asked[i] == PushedBy(i, g.pushed, g.who) + Unpushed(prods[i])
  }

  predicate ReturnedInv<W(==)>(cons: Consumer<W>, popped: seq<seq<W>>, returned: seq<seq<W>>) {
    popped == returned + if cons.CPost? then [cons.buf] else []
  }

  lemma PushedByMore<W>(i: nat, pushed: seq<seq<W>>, who: seq<nat>, x: seq<W>, j: nat)
    requires |who| == |pushed|
    ensures PushedBy(i, pushed + [x], who + [j]) == PushedBy(i, pushed, who) + (if j == i then [x] else [])
  {
    assert (pushed + [x])[..|pushed|] == pushed && (who + [j])[..|who|] == who;
  }

  lemma StepKeepsAsked<W>(c: Config, m: Machine<W>, g: Log<W>, k: Calls<W>, l: Label<W>)
    requires Typed(c, m) && AskedInv(m.prods, g, k.asked)
    ensures var m' := Step(c, m, l); AskedInv(m'.prods, Record(c, m, g, l), Observe(c, k, m, l, m').asked)
  {
    hide PushedBy, Typed;
    var m', g' := Step(c, m, l), Record(c, m, g, l);
    var asked := Observe(c, k, m, l, m').asked;
    forall i | 0 <= i < |m.prods|
      ensures asked[i] == PushedBy(i, g'.pushed, g'.who) + Unpushed(m'.prods[i])
    {
      assert k.asked[i] == PushedBy(i, g.pushed, g.who) + Unpushed(m.prods[i]);
      if l.Produce? && l.i < |m.prods| && g'.pushed != g.pushed {
        var x := m.prods[l.i].x;
        PushedByMore(i, g.pushed, g.who, x, l.i);
        assert l.i == i ==> Unpushed(m.prods[i]) == [x] && Unpushed(m'.prods[i]) == [];
      }
    }
  }

  lemma StepKeepsReturned<W>(c: Config, m: Machine<W>, g: Log<W>, k: Calls<W>, l: Label<W>)
    requires Typed(c, m) && ReturnedInv(m.cons, g.popped, k.returned)
    ensures var m' := Step(c, m, l);
            ReturnedInv(m'.cons, Record(c, m, g, l).popped, Observe(c, k, m, l, m').returned)
  {
  }

  /**
   * The ring carries what the callers gave and returns what it carries: each producer's elements
   * are in the order in which it was asked to push them, and each pop returned the element taken.
   */
  lemma {:induction false} CallersSeeTheRing<W>(c: Config, m0: Machine<W>, schedule: seq<Label<W>>)
    requires Init(c, m0)
    ensures var t := Run(c, m0, schedule);
            AskedInv(t.m.prods, t.g, t.calls.asked) && ReturnedInv(t.m.cons, t.g.popped, t.calls.returned)
  {
    if schedule != [] {
      hide AskedInv, ReturnedInv, Step, Record, Observe;
      var t, l := Run(c, m0, schedule[..|schedule| - 1]), schedule[|schedule| - 1];
      CallersSeeTheRing(c, m0, schedule[..|schedule| - 1]);
      StepKeepsAsked(c, t.m, t.g, t.calls, l);
      StepKeepsReturned(c, t.m, t.g, t.calls, l);
    }
  }

  ghost predicate AtRest<W>(m: Machine<W>) {
    (forall i :: 0 <= i < |m.prods| ==> m.prods[i].PIdle?) && m.cons.CIdle?
  }

  /** free + filled + operations in flight == capacity; at rest, free is what is left of the capacity. */
  lemma TokensAreConserved<W>(c: Config, m0: Machine<W>, schedule: seq<Label<W>>)
    requires Init(c, m0)
    ensures var t := Run(c, m0, schedule);
            && t.m.free + t.m.filled + Count(t.m.prods, Holding) + Count(t.m.prods, Posting)
               + (if t.m.cons.CCopy? || t.m.cons.CPost? then 1 else 0) == c.capacity
            && t.m.mutex + Count(t.m.prods, Inside) == 1
            && (AtRest(t.m) ==> t.m.free == c.capacity - (|t.g.pushed| - |t.g.popped|))
  {
    RunKeepsInv(c, m0, schedule);
    var t := Run(c, m0, schedule);
    if AtRest(t.m) {
      IdleCountsZero(t.m.prods, Holding);
    }
  }

  /** A push that starts when all is at rest waits if and only if capacity elements are queued. */
  lemma PushWaitsWhenFull<W>(c: Config, m0: Machine<W>, schedule: seq<Label<W>>, i: nat, x: seq<W>)
    requires Init(c, m0) && i < |Run(c, m0, schedule).m.prods| && |x| == c.words
    ensures var t := Run(c, m0, schedule);
            var m1 := Step(c, t.m, StartPush(i, x));
            AtRest(t.m) ==> (Step(c, m1, Produce(i)) == m1 <==> |t.g.pushed| - |t.g.popped| == c.capacity)
  {
    TokensAreConserved(c, m0, schedule);
    var t := Run(c, m0, schedule);
    var m1 := Step(c, t.m, StartPush(i, x));
    if AtRest(t.m) {
      assert m1.prods[i] == PWait(x) && m1.free == t.m.free;
      assert t.m.free > 0 ==> Step(c, m1, Produce(i)).free != m1.free;
    }
  }

  /** The consumer never reads a slot that a producer is writing, nor one not completely written. */
  lemma ConsumerReadsFinishedSlots<W>(c: Config, m0: Machine<W>, schedule: seq<Label<W>>, i: nat)
    requires Init(c, m0)
    ensures var t := Run(c, m0, schedule);
            && (t.m.cons.CCopy? ==>
                  |t.g.popped| < |t.g.pushed| && t.m.data[t.m.readIdx] == t.g.pushed[|t.g.popped|])
            && (t.m.cons.CCopy? && i < |t.m.prods| && t.m.prods[i].PCopy? ==> t.m.readIdx != t.m.writeIdx)
  {
    RunKeepsInv(c, m0, schedule);
    var t := Run(c, m0, schedule);
    if t.m.cons.CCopy? && i < |t.m.prods| && t.m.prods[i].PCopy? {
      SlotIsFree(c, t.m, t.g, i, |t.g.popped|);
    }
  }

  // ---------- at rest ----------

  /** The ring between operations, with the flag that tells a full ring from an empty one. */
  class Ring<T(0)> {
    const data: array<T>
    var writeIdx: nat
    var readIdx: nat
    var isFull: bool
    ghost var contents: seq<T>          // what was pushed and not yet popped, oldest first

    ghost predicate Valid()
      reads this, data
    {
      && writeIdx < data.Length && readIdx < data.Length && |contents| <= data.Length
      && contents == ShmRing.Window(data[..], readIdx, |contents|)
      && writeIdx == Slot(readIdx + |contents|, data.Length)
      && (isFull <==> |contents| == data.Length)
    }

    constructor (capacity: nat)
      requires capacity > 0
      ensures Valid() && data.Length == capacity && contents == [] && fresh(data)
    {
      data := new T[capacity];
      writeIdx, readIdx, isFull, contents := 0, 0, false, [];
    }

    /** A push that found a free token; every slot can be used. */
    method Push(x: T)
      requires Valid() && |contents| < data.Length
      modifies this, data
      ensures Valid() && contents == old(contents) + [x]
    {
      ghost var d, n := data[..], |contents|;
      data[writeIdx] := x;
      assert data[..] == ShmRing.StoreRun(d, writeIdx, [x]);
      ShmRing.WindowFrame(d, readIdx, n, writeIdx, [x]);
      Next(readIdx + n, data.Length);
      SlotsWithinLap(readIdx, readIdx + n + 1, data.Length);
      writeIdx := Increment(writeIdx, data.Length);
      contents := contents + [x];
      if writeIdx == readIdx {
        isFull := true;
      }
    }

    /** A pop that found a filled token. */
    method Pop() returns (x: T)
      requires Valid() && contents != []
      modifies this
      ensures Valid() && x == old(contents)[0] && contents == old(contents)[1..]
    {
      ShmRing.WindowHead(data[..], readIdx, |contents|);
      ShmRing.WindowSuffix(data[..], readIdx, |contents|, 1);
      Next(readIdx, data.Length);
      ShmRing.SlotOfSum(readIdx + 1, |contents| - 1, data.Length);
      x := data[readIdx];
      isFull := false;
      readIdx := Increment(readIdx, data.Length);
      contents := contents[1..];
    }

    /** Looks only at the indices: a full ring looks empty to it. */
    method Front() returns (x: Option<T>)
      requires Valid()
      ensures x.None? <==> |contents| == 0 || |contents| == data.Length
      ensures x.Some? ==> x.value == contents[0]
    {
      SlotsWithinLap(readIdx, readIdx + |contents|, data.Length);
      if writeIdx == readIdx {
        return None;
      }
      ShmRing.WindowHead(data[..], readIdx, |contents|);
      return Some(data[readIdx]);
    }

    /** `sem_shmring_size`: the number of elements, told from the indices and the flag. */
    method Size() returns (n: nat)
      requires Valid()
      ensures n == |contents|
    {
      ghost var end := readIdx + |contents|;
      assert writeIdx == if end < data.Length then end else Slot(end - data.Length, data.Length);
      n := data.Length;
      if !isFull {
        if writeIdx >= readIdx {
          n := writeIdx - readIdx;
        } else {
          n := data.Length + writeIdx - readIdx;
        }
      }
    }

    method Empty() returns (b: bool)
      requires Valid()
      ensures b <==> contents == []
    {
      SlotsWithinLap(readIdx, readIdx + |contents|, data.Length);
      b := !isFull && writeIdx == readIdx;
    }

    method Full() returns (b: bool)
      requires Valid()
      ensures b <==> |contents| == data.Length
    {
      b := isFull;
    }
  }
}
