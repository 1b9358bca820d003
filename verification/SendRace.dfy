/**
 * An append to the list of served connections while the sending thread unlinks a closed one.
 * Nothing keeps the two threads apart, so each load and store of a link or of the tail pointer is
 * a step of its own.  Nodes are numbers; `next` holds their links.
 */
module SendRace {

  datatype Appender = ALoad | AStore(t: nat) | ATail | ADone

  datatype Remover = RLoad | RStore(x: nat) | RTest | RTail | RDone

  datatype Machine = Machine(next: map<nat, nat>, tail: nat, app: Appender, rem: Remover)

  /** The list, head first; the sending thread is at node `p` and unlinks the one behind it; the new node. */
  datatype Config = Config(ns: seq<nat>, p: nat, node: nat) {
    predicate Valid() {
      && p + 1 < |ns| && node !in ns
      && (forall i, j :: 0 <= i < j < |ns| ==> ns[i] != ns[j])
    }

    function Pre(): nat requires Valid() { ns[p] }

    function Curr(): nat requires Valid() { ns[p + 1] }

    /** The node to be unlinked is the last one. */
    predicate AtEnd() { p + 2 == |ns| }
  }

  datatype Label = Append | Remove

  /** `add_conn_to_ntb_send_list`, once its node is linked to the head. */
  function StepAppend(c: Config, m: Machine): Machine {
    match m.app
    case ALoad => m.(app := AStore(m.tail))
    case AStore(t) => m.(next := m.next[t := c.node], app := ATail)
    case ATail => m.(tail := c.node, app := ADone)
    case ADone => m
  }

  /** The unlinking part of `ntb_send_thread`. */
  function StepRemove(c: Config, m: Machine): Machine
    requires c.Valid()
  {
    match m.rem
    case RLoad => if c.Curr() in m.next then m.(rem := RStore(m.next[c.Curr()])) else m
    case RStore(x) => m.(next := m.next[c.Pre() := x], rem := RTest)
    case RTest => m.(rem := if m.tail == c.Curr() then RTail else RDone)
    case RTail => m.(tail := c.Pre(), rem := RDone)
    case RDone => m
  }

  function Step(c: Config, m: Machine, l: Label): Machine
    requires c.Valid()
  {
    match l
    case Append => StepAppend(c, m)
    case Remove => StepRemove(c, m)
  }

  /** How the two threads' accesses fall in time. */
  datatype Order = Order(
    early: bool,     // the tail was loaded before the other thread was done with it
    late: bool,      // the link was stored after the other thread had loaded the unlinked node's link
    split: bool)     // the tail was stored between the other thread's test of it and its store

  function Note(o: Order, m: Machine, l: Label): Order {
    if l.Remove? then o
    else
      match m.app
      case ALoad => o.(early := !m.rem.RDone?)
      case AStore(_) => o.(late := !m.rem.RLoad?)
      case ATail => o.(split := m.rem.RTail?)
      case ADone => o
  }

  datatype Trace = Trace(m: Machine, o: Order)

  function Run(c: Config, m0: Machine, schedule: seq<Label>): Trace
    requires c.Valid()
  {
    if schedule == [] then Trace(m0, Order(false, false, false))
    else
      var t, l := Run(c, m0, schedule[..|schedule| - 1]), schedule[|schedule| - 1];
      Trace(Step(c, t.m, l), Note(t.o, t.m, l))
  }

  /** The nodes in this order, each linked to the next and the last to the first. */
  predicate Circle(next: map<nat, nat>, q: seq<nat>) {
    forall i :: 0 <= i < |q| ==> LinkAt(next, q, i)
  }

  predicate LinkAt(next: map<nat, nat>, q: seq<nat>, i: nat)
    requires i < |q|
  {
    q[i] in next && next[q[i]] == if i + 1 < |q| then q[i + 1] else q[0]
  }

  ghost predicate Init(c: Config, m: Machine) {
    && c.Valid() && Circle(m.next, c.ns) && c.node in m.next && m.next[c.node] == c.ns[0]
    && m.tail == c.ns[|c.ns| - 1] && m.app == ALoad && m.rem == RLoad
  }

  // ---------- the invariant ----------

  /** All links but those of the three nodes involved are as they were. */
  predicate Others(c: Config, next: map<nat, nat>)
    requires c.Valid()
  {
    && c.Pre() in next && c.Curr() in next && c.ns[|c.ns| - 1] in next
    && (forall i :: 0 <= i < |c.ns| - 1 && i != c.p ==> LinkAt(next, c.ns, i))
    && c.node in next && next[c.node] == c.ns[0]
  }

  /** The appended node is linked, but the tail pointer may not be there yet. */
  predicate Stored(m: Machine) { m.app.ATail? || m.app.ADone? }

  /** The unlinked node is the last one: its link and its predecessor's decide what is found. */
  predicate EndInv(c: Config, m: Machine, o: Order)
    requires c.Valid() && Others(c, m.next)
  {
    var (pre, curr, head, pn, cn) := (c.Pre(), c.Curr(), c.ns[0], m.next[c.Pre()], m.next[c.Curr()]);
    var lost := o.early && o.late;
    && (m.app.AStore? ==> m.app.t == if o.early then curr else pre)
    && (!m.app.ALoad? && !o.early ==> m.rem.RDone?)
    && (Stored(m) && !o.early ==> o.late)
    && cn == (if Stored(m) && o.early then c.node else head)
    && (Stored(m) && o.late ==> !m.rem.RLoad?)
    && (m.rem.RStore? ==> m.rem.x == if Stored(m) && o.early && !o.late then c.node else head)
    && pn == (if m.rem.RLoad? || m.rem.RStore? then curr
              else if Stored(m) && !lost then c.node else head)
    && (!m.app.ADone? ==> m.tail == if m.rem.RDone? then pre else curr)
    && (m.app.ADone? && !m.rem.RDone? ==> m.tail == c.node && (o.split <==> m.rem.RTail?) )
    && (m.app.ADone? && m.rem.RDone? ==> m.tail == if o.split then pre else c.node)
  }

  predicate MiddleInv(c: Config, m: Machine)
    requires c.Valid() && Others(c, m.next) && !c.AtEnd()
  {
    var (last, after) := (c.ns[|c.ns| - 1], c.ns[c.p + 2]);
    && m.next[c.Curr()] == after
    && (m.app.AStore? ==> m.app.t == last)
    && m.next[last] == (if Stored(m) then c.node else c.ns[0])
    && (m.rem.RStore? ==> m.rem.x == after)
    && m.next[c.Pre()] == (if m.rem.RLoad? || m.rem.RStore? then c.Curr() else after)
    && m.tail == (if m.app.ADone? then c.node else last) && !m.rem.RTail?
  }

  ghost predicate Inv(c: Config, m: Machine, o: Order) {
    && c.Valid() && Others(c, m.next) && (if c.AtEnd() then EndInv(c, m, o) else MiddleInv(c, m))
  }

  lemma InitIsInv(c: Config, m: Machine)
    requires Init(c, m)
    ensures Inv(c, m, Order(false, false, false))
  {
    assert LinkAt(m.next, c.ns, c.p) && LinkAt(m.next, c.ns, c.p + 1) && LinkAt(m.next, c.ns, |c.ns| - 1);
  }

  lemma StepKeepsOthers(c: Config, m: Machine, o: Order, l: Label)
    requires Inv(c, m, o)
    ensures Others(c, Step(c, m, l).next)
  {
    var m' := Step(c, m, l);
    forall i | 0 <= i < |c.ns| - 1 && i != c.p
      ensures LinkAt(m'.next, c.ns, i)
    {
      assert LinkAt(m.next, c.ns, i);
    }
  }

  lemma AppendKeepsInv(c: Config, m: Machine, o: Order)
    requires Inv(c, m, o)
    ensures Inv(c, StepAppend(c, m), Note(o, m, Append))
  {
    hide LinkAt;
    StepKeepsOthers(c, m, o, Append);
  }

  lemma RemoveKeepsInv(c: Config, m: Machine, o: Order)
    requires Inv(c, m, o)
    ensures Inv(c, StepRemove(c, m), o)
  {
    hide LinkAt;
    StepKeepsOthers(c, m, o, Remove);
  }

  lemma StepKeepsInv(c: Config, m: Machine, o: Order, l: Label)
    requires Inv(c, m, o)
    ensures Inv(c, Step(c, m, l), Note(o, m, l))
  {
    hide Inv;
    if l.Append? {
      AppendKeepsInv(c, m, o);
    } else {
      RemoveKeepsInv(c, m, o);
    }
  }

  lemma {:induction false} RunKeepsInv(c: Config, m0: Machine, schedule: seq<Label>)
    requires Init(c, m0)
    ensures var t := Run(c, m0, schedule); Inv(c, t.m, t.o)
    decreases |schedule|
  {
    if schedule == [] {
      InitIsInv(c, m0);
    } else {
      hide Inv, Step, Note;
      var t := Run(c, m0, schedule[..|schedule| - 1]);
      RunKeepsInv(c, m0, schedule[..|schedule| - 1]);
      StepKeepsInv(c, t.m, t.o, schedule[|schedule| - 1]);
    }
  }

  // ---------- what is left of the list ----------

  /** The list without the unlinked node. */
  function Rest(c: Config): seq<nat>
    requires c.Valid()
  {
    c.ns[..c.p + 1] + c.ns[c.p + 2..]
  }

  lemma RestLinks(c: Config, next: map<nat, nat>, q: seq<nat>)
    requires c.Valid() && Others(c, next) && (q == Rest(c) || q == Rest(c) + [c.node])
    requires !c.AtEnd() ==> next[c.Pre()] == c.ns[c.p + 2] && next[c.ns[|c.ns| - 1]] == c.node
    requires !c.AtEnd() ==> q == Rest(c) + [c.node]
    requires c.AtEnd() ==> next[c.Pre()] == if q == Rest(c) then c.ns[0] else c.node
    ensures Circle(next, q)
  {
    forall i | 0 <= i < |q|
      ensures LinkAt(next, q, i)
    {
      if i < c.p {
        assert LinkAt(next, c.ns, i);
      } else if c.p < i && i + 2 < |c.ns| {
        assert LinkAt(next, c.ns, i + 1);
      }
    }
  }

  /** Whether the race lost the new node, and whether it left the tail at the node before. */
  predicate Lost(c: Config, o: Order) { c.AtEnd() && o.early && o.late }

  predicate Behind(c: Config, o: Order) { c.AtEnd() && o.split }

  /**
   * When both threads are done, the new node is in the circle if and only if the unlinked node was
   * not the last one, or the tail was loaded after it had been moved, or the new node was linked
   * before the unlinked node's link was loaded.  Otherwise the circle is closed without it.
   */
  lemma WhenAppendIsLost(c: Config, m0: Machine, schedule: seq<Label>)
    requires Init(c, m0) && Run(c, m0, schedule).m.app.ADone? && Run(c, m0, schedule).m.rem.RDone?
    ensures var t := Run(c, m0, schedule);
            if Lost(c, t.o) then Circle(t.m.next, Rest(c))
            else Circle(t.m.next, Rest(c) + [c.node])
  {
    RunKeepsInv(c, m0, schedule);
    var t := Run(c, m0, schedule);
    RestLinks(c, t.m.next, if Lost(c, t.o) then Rest(c) else Rest(c) + [c.node]);
  }

  /**
   * The tail pointer ends at the new node if and only if it was not stored between the other
   * thread's test and store; otherwise it is left at the node before.
   */
  lemma WhenTailIsRight(c: Config, m0: Machine, schedule: seq<Label>)
    requires Init(c, m0) && Run(c, m0, schedule).m.app.ADone? && Run(c, m0, schedule).m.rem.RDone?
    ensures var t := Run(c, m0, schedule);
            && (t.m.tail == c.node <==> !Behind(c, t.o))
            && (t.m.tail != c.node ==> t.m.tail == c.Pre())
  {
    RunKeepsInv(c, m0, schedule);
    assert c.Pre() in c.ns;
  }

  lemma Extend(c: Config, m0: Machine, s: seq<Label>, l: Label) returns (s': seq<Label>)
    requires c.Valid()
    ensures s' == s + [l]
    ensures Run(c, m0, s') == Trace(Step(c, Run(c, m0, s).m, l), Note(Run(c, m0, s).o, Run(c, m0, s).m, l))
  {
    s' := s + [l];
    assert s'[..|s|] == s;
  }

  // ---------- later appends ----------

  /** A list as its users reach it: the links and the tail pointer. */
  datatype List = List(next: map<nat, nat>, tail: nat)

  /** `add_conn_to_ntb_send_list`, with nobody else at work. */
  function AppendAlone(l: List, head: nat, x: nat): List {
    List(l.next[x := head][l.tail := x], x)
  }

  function AppendAll(l: List, head: nat, xs: seq<nat>): List {
    if xs == [] then l else AppendAlone(AppendAll(l, head, xs[..|xs| - 1]), head, xs[|xs| - 1])
  }

  /** The nodes in this order, each linked to the next; where the last one's link leads is left open. */
  predicate Chained(next: map<nat, nat>, q: seq<nat>) {
    forall i :: 0 <= i < |q| - 1 ==> LinkAt(next, q, i)
  }

  predicate Distinct(q: seq<nat>) { forall i, j :: 0 <= i < j < |q| ==> q[i] != q[j] }

  /** If the tail is the last of these nodes, appended nodes follow it, whatever was behind it before. */
  lemma {:induction false} AppendsFollow(l: List, q: seq<nat>, xs: seq<nat>)
    requires q != [] && xs != [] && Distinct(q + xs) && Chained(l.next, q) && l.tail == q[|q| - 1]
    ensures var l' := AppendAll(l, q[0], xs); Circle(l'.next, q + xs) && l'.tail == xs[|xs| - 1]
    decreases |xs|
  {
    var n := |xs| - 1;
    var before := AppendAll(l, q[0], xs[..n]);
    var r, x := q + xs[..n], xs[n];
    assert r + [x] == q + xs;
    assert forall i :: 0 <= i < |r| ==> r[i] == (q + xs)[i];
    assert (q + xs)[|r|] == x;
    if n == 0 {
      assert r == q;
    } else {
      AppendsFollow(l, q, xs[..n]);
    }
    AppendFollows(before, r, x);
  }

  lemma AppendFollows(l: List, q: seq<nat>, x: nat)
    requires q != [] && Distinct(q) && x !in q && Chained(l.next, q) && l.tail == q[|q| - 1]
    ensures Circle(AppendAlone(l, q[0], x).next, q + [x])
  {
    var next, r := AppendAlone(l, q[0], x).next, q + [x];
    forall i | 0 <= i < |r|
      ensures LinkAt(next, r, i)
    {
      if i < |q| - 1 {
        assert LinkAt(l.next, q, i);
      }
    }
  }

  /** If the tail is outside the circle, appended nodes never get into it. */
  lemma {:induction false} AppendsStayOutside(l: List, q: seq<nat>, xs: seq<nat>)
    requires q != [] && Circle(l.next, q) && l.tail !in q && forall i :: 0 <= i < |xs| ==> xs[i] !in q
    ensures var l' := AppendAll(l, q[0], xs); Circle(l'.next, q) && l'.tail !in q
    decreases |xs|
  {
    if xs != [] {
      var n := |xs| - 1;
      AppendsStayOutside(l, q, xs[..n]);
      var before := AppendAll(l, q[0], xs[..n]);
      forall i | 0 <= i < |q|
        ensures LinkAt(AppendAlone(before, q[0], xs[n]).next, q, i)
      {
        assert LinkAt(before.next, q, i);
      }
    }
  }

  /**
   * What becomes of connections appended after the race, any number of them.  They are all lost
   * with the new one if that was lost and the tail left at it; they are served, and the new one is
   * not, if the tail was left at the node before, even where the race itself had not lost it; and
   * otherwise all are served.
   */
  lemma WhenLaterAppendsAreLost(c: Config, m0: Machine, schedule: seq<Label>, xs: seq<nat>)
    requires Init(c, m0) && Run(c, m0, schedule).m.app.ADone? && Run(c, m0, schedule).m.rem.RDone?
    requires xs != [] && Distinct(xs) && forall i :: 0 <= i < |xs| ==> xs[i] !in Rest(c) && xs[i] != c.node
    ensures var t := Run(c, m0, schedule);
            var next := AppendAll(List(t.m.next, t.m.tail), c.ns[0], xs).next;
            if Behind(c, t.o) then Circle(next, Rest(c) + xs)
            else if Lost(c, t.o) then Circle(next, Rest(c))
            else Circle(next, Rest(c) + [c.node] + xs)
  {
    hide Run, AppendAll;
    var t := Run(c, m0, schedule);
    var l := List(t.m.next, t.m.tail);
    WhenAppendIsLost(c, m0, schedule);
    WhenTailIsRight(c, m0, schedule);
    RestIsDistinct(c, xs);
    if Behind(c, t.o) {
      FirstAreChained(l.next, Rest(c), [c.node]);
      AppendsFollow(l, Rest(c), xs);
    } else if Lost(c, t.o) {
      AppendsStayOutside(l, Rest(c), xs);
    } else {
      AppendsFollow(l, Rest(c) + [c.node], xs);
    }
  }

  lemma FirstAreChained(next: map<nat, nat>, q: seq<nat>, r: seq<nat>)
    requires Circle(next, q) || Circle(next, q + r)
    ensures Chained(next, q)
  {
    if Circle(next, q + r) {
      forall i | 0 <= i < |q| - 1
        ensures LinkAt(next, q, i)
      {
        assert LinkAt(next, q + r, i);
      }
    }
  }

  lemma RestIsDistinct(c: Config, xs: seq<nat>)
    requires c.Valid() && Distinct(xs) && forall i :: 0 <= i < |xs| ==> xs[i] !in Rest(c) && xs[i] != c.node
    ensures Rest(c) != [] && Rest(c)[0] == c.ns[0] && c.node !in Rest(c)
    ensures Distinct(Rest(c) + xs) && Distinct(Rest(c) + [c.node] + xs)
    ensures c.AtEnd() ==> Rest(c)[|Rest(c)| - 1] == c.Pre()
  {
    var r := Rest(c);
    forall i | 0 <= i < |r|
      ensures r[i] == c.ns[if i <= c.p then i else i + 1]
    {
    }
    assert Distinct(r) && c.node !in r;
    assert forall i, j :: 0 <= i < |r| && 0 <= j < |xs| ==> r[i] != xs[j];
  }

  /**
   * In every list whose last node is unlinked, an append that falls behind the load of its link is
   * lost, and so is every later one.
   */
  lemma LostAppend(c: Config, m0: Machine) returns (s: seq<Label>)
    requires Init(c, m0) && c.AtEnd()
    ensures var t := Run(c, m0, s);
            t.m.app.ADone? && t.m.rem.RDone? && Lost(c, t.o) && !Behind(c, t.o) && Circle(t.m.next, Rest(c))
  {
    InitIsInv(c, m0);
    s := [];
    assert Run(c, m0, s).m == m0;
    hide Run, Circle;
    s := Extend(c, m0, s, Remove);
    s := Extend(c, m0, s, Append);
    s := Extend(c, m0, s, Append);
    s := Extend(c, m0, s, Append);
    s := Extend(c, m0, s, Remove);
    s := Extend(c, m0, s, Remove);
    WhenAppendIsLost(c, m0, s);
  }

  /** In every such list, an append whose tail store falls between the other's test and store is dropped by the next. */
  lemma OvertakenTail(c: Config, m0: Machine) returns (s: seq<Label>)
    requires Init(c, m0) && c.AtEnd()
    ensures var t := Run(c, m0, s);
            t.m.app.ADone? && t.m.rem.RDone? && !Lost(c, t.o) && Behind(c, t.o) && Circle(t.m.next, Rest(c) + [c.node])
  {
    InitIsInv(c, m0);
    s := [];
    assert Run(c, m0, s).m == m0;
    hide Run, Circle;
    s := Extend(c, m0, s, Append);
    s := Extend(c, m0, s, Append);
    s := Extend(c, m0, s, Remove);
    s := Extend(c, m0, s, Remove);
    s := Extend(c, m0, s, Remove);
    s := Extend(c, m0, s, Append);
    s := Extend(c, m0, s, Remove);
    WhenAppendIsLost(c, m0, s);
  }
}
