/**
 * The list of connections that a sending thread serves in turn: a circular list behind a head node.
 * The thread keeps a pointer to the node it last left; it unlinks the connections that it finds
 * closed, while other threads append new ones at the tail and close connections at any time.
 */
module SendList {
  import opened Options
  import opened RingIndex

  // ---------- one step, on values ----------

  /** The connections in list order, how many of them the thread has passed, and which are closed. */
  datatype State = State(conns: seq<nat>, passed: nat, closed: set<nat>)

  datatype Label = Turn | Add(conn: nat) | Close(conn: nat)

  /** What a turn of the loop does with the connection it meets. */
  datatype Outcome = Nothing | LapDone | Served(conn: nat) | Dropped(conn: nat)

  predicate Typed(s: State) { s.passed <= |s.conns| }

  function Do(s: State, l: Label): (r: (State, Outcome))
    requires Typed(s)
    ensures Typed(r.0)
  {
    match l
    case Add(c) => (s.(conns := s.conns + [c]), Nothing)
    case Close(c) => (s.(closed := s.closed + {c}), Nothing)
    case Turn =>
      if s.passed == |s.conns| then (s.(passed := 0), LapDone)
      else if s.conns[s.passed] in s.closed then
        (s.(conns := s.conns[..s.passed] + s.conns[s.passed + 1..]), Dropped(s.conns[s.passed]))
      else (s.(passed := s.passed + 1), Served(s.conns[s.passed]))
  }

  // ---------- a lap ----------

  /** What happened since the thread was last at the head. */
  datatype Lap = Lap(served: seq<nat>, dropped: seq<nat>, added: seq<nat>)

  function Record(g: Lap, l: Label, o: Outcome): Lap {
    match o
    case Served(c) => g.(served := g.served + [c])
    case Dropped(c) => g.(dropped := g.dropped + [c])
    case LapDone => g
    case Nothing => if l.Add? then g.(added := g.added + [l.conn]) else g
  }

  /** A schedule run from a state at the head; `None` once the lap is over. */
  function Run(s: State, schedule: seq<Label>): (r: Option<(State, Lap)>)
    requires s.passed == 0
    ensures r.Some? ==> Typed(r.value.0)
  {
    if schedule == [] then Some((s, Lap([], [], [])))
    else
      var before := Run(s, schedule[..|schedule| - 1]);
      if before.None? then None
      else
        var l := schedule[|schedule| - 1];
        var (s', o) := Do(before.value.0, l);
        if o.LapDone? then None else Some((s', Record(before.value.1, l, o)))
  }

  /** The connections passed are those served, in order, and none of the others is lost. */
  ghost predicate LapInv(start: seq<nat>, s: State, g: Lap) {
    && Typed(s) && s.conns[..s.passed] == g.served
    && multiset(start + g.added) == multiset(s.conns) + multiset(g.dropped)
    && (forall c :: c in g.dropped ==> c in s.closed)
  }

  lemma StepKeepsLap(start: seq<nat>, s: State, g: Lap, l: Label)
    requires LapInv(start, s, g) && !Do(s, l).1.LapDone?
    ensures LapInv(start, Do(s, l).0, Record(g, l, Do(s, l).1))
  {
    match l
    case Add(c) =>
      assert start + (g.added + [c]) == (start + g.added) + [c];
      assert (s.conns + [c])[..s.passed] == s.conns[..s.passed];
    case Close(c) =>
    case Turn => TurnKeepsLap(start, s, g);
  }

  lemma TurnKeepsLap(start: seq<nat>, s: State, g: Lap)
    requires LapInv(start, s, g) && !Do(s, Turn).1.LapDone?
    ensures LapInv(start, Do(s, Turn).0, Record(g, Turn, Do(s, Turn).1))
  {
    var a, c, b := s.conns[..s.passed], s.conns[s.passed], s.conns[s.passed + 1..];
    if c in s.closed {
      assert s.conns == a + [c] + b;
      assert (a + b)[..s.passed] == a;
      TakeOut(a, c, b, g.dropped);
    } else {
      assert s.conns[..s.passed + 1] == a + [c];
    }
  }

  lemma TakeOut(a: seq<nat>, c: nat, b: seq<nat>, dropped: seq<nat>)
    ensures multiset(a + [c] + b) + multiset(dropped) == multiset(a + b) + multiset(dropped + [c])
  {
    var x, y, z := multiset(a), multiset(b), multiset(dropped);
    assert multiset(a + [c] + b) == x + multiset{c} + y;
    assert multiset(a + b) == x + y;
    assert multiset(dropped + [c]) == z + multiset{c};
  }

  lemma {:induction false} RunKeepsLap(s: State, schedule: seq<Label>)
    requires s.passed == 0 && Run(s, schedule).Some?
    ensures LapInv(s.conns, Run(s, schedule).value.0, Run(s, schedule).value.1)
    decreases |schedule|
  {
    if schedule == [] {
      assert s.conns + [] == s.conns;
      assert s.conns[..0] == [];
    } else {
      var before := schedule[..|schedule| - 1];
      RunKeepsLap(s, before);
      var (s1, g1) := Run(s, before).value;
      StepKeepsLap(s.conns, s1, g1, schedule[|schedule| - 1]);
    }
  }

  /**
   * However connections come and close meanwhile, when the thread is about to be back at the head
   * it has served every linked connection exactly once, in list order; and every connection that
   * was linked or added is either among them or was found closed and unlinked.
   */
  lemma LapServesEachOnce(s: State, schedule: seq<Label>)
    requires s.passed == 0 && Run(s, schedule).Some? && Run(s, schedule + [Turn]).None?
    ensures var (s', g) := Run(s, schedule).value;
            && g.served == s'.conns
            && multiset(s.conns + g.added) == multiset(g.served) + multiset(g.dropped)
            && (forall c :: c in g.dropped ==> c in s'.closed)
  {
    assert (schedule + [Turn])[..|schedule|] == schedule;
    RunKeepsLap(s, schedule);
    var (s', g) := Run(s, schedule).value;
    assert Do(s', Turn).1.LapDone?;
    assert s'.conns[..|s'.conns|] == s'.conns;
  }

  /** A connection that nobody closes is served in every lap, if it is linked when the lap starts. */
  lemma OpenConnectionIsServed(s: State, schedule: seq<Label>, c: nat)
    requires s.passed == 0 && Run(s, schedule).Some? && Run(s, schedule + [Turn]).None?
    requires c in s.conns && c !in Run(s, schedule).value.0.closed
    ensures c in Run(s, schedule).value.1.served
  {
    LapServesEachOnce(s, schedule);
    var (s', g) := Run(s, schedule).value;
    assert c in multiset(s.conns + g.added);
  }

  // ---------- the linked list ----------

  class Node {
    const conn: nat
    var next: Node?

    constructor (conn: nat)
      ensures this.conn == conn
    {
      this.conn := conn;
      next := null;
    }
  }

  class List {
    const head: Node
    var tail: Node
    ghost var nodes: seq<Node>

    /** The nodes in order, each linked to the next and the last to the first. */
    ghost predicate Valid()
      reads this, nodes
    {
      && |nodes| > 0 && nodes[0] == head && nodes[|nodes| - 1] == tail
      && (forall i, j :: 0 <= i < j < |nodes| ==> nodes[i] != nodes[j])
      && (forall i :: 0 <= i < |nodes| - 1 ==> nodes[i].next == nodes[i + 1])
      && tail.next == head
    }

    ghost function Conns(): (s: seq<nat>)
      requires |nodes| > 0
      reads this
      ensures |s| == |nodes| - 1 && forall i :: 0 <= i < |s| ==> s[i] == nodes[i + 1].conn
    {
      var ns := nodes;
      seq(|ns| - 1, i requires 0 <= i < |ns| - 1 => ns[i + 1].conn)
    }

    constructor ()
      ensures Valid() && Conns() == [] && fresh(nodes)
    {
      var node := new Node(0);
      head := node;
      tail := node;
      nodes := [node];
      new;
      node.next := node;
    }

    /** `add_conn_to_ntb_send_list`; the place of the thread's pointer does not change. */
    method Add(conn: nat, ghost at: nat, ghost closed: set<nat>)
      requires Valid() && at < |nodes|
      modifies this, nodes
      ensures Valid() && fresh(set n | n in nodes && n !in old(nodes))
      ensures State(Conns(), at, closed) == Do(State(old(Conns()), at, closed), Label.Add(conn)).0
      ensures nodes[at] == old(nodes[at])
    {
      var node := new Node(conn);
      node.next := head;
      tail.next := node;
      tail := node;
      nodes := nodes + [node];
      assert Conns() == old(Conns()) + [conn];
    }

    /** One turn of the sending thread's loop, whose pointer is at node `at`. */
    method Turn(pre: Node, closed: set<nat>, ghost at: nat) returns (pre': Node, o: Outcome, ghost at': nat)
      requires Valid() && at < |nodes| && nodes[at] == pre
      modifies this, nodes
      ensures Valid() && at' < |nodes| && nodes[at'] == pre'
      ensures (State(Conns(), at', closed), o) == Do(State(old(Conns()), at, closed), Label.Turn)
      ensures forall n :: n in nodes ==> n in old(nodes)
    {
      assert at + 1 < |nodes| ==> nodes[at + 1] != nodes[0];
      var curr := pre.next;
      if curr == head {
        return head, LapDone, 0;
      }
      assert curr == nodes[at + 1];
      if curr.conn in closed {
        pre.next := curr.next;
        if curr == tail {
          tail := pre;
        }
        nodes := nodes[..at + 1] + nodes[at + 2..];
        assert Conns() == old(Conns())[..at] + old(Conns())[at + 1..];
        return pre, Dropped(curr.conn), at;
      }
      return curr, Served(curr.conn), at + 1;
    }
  }

  // ---------- what a served connection gets ----------

  datatype Message<P> = Data(p: P) | Fin

  /** How many messages a turn forwards: at most `bulk`, and none after a FIN. */
  function Batch<P>(bulk: nat, q: seq<Message<P>>): (n: nat)
    ensures n <= |q| && n <= bulk
    decreases bulk
  {
    if bulk == 0 || q == [] then 0 else if q[0].Fin? then 1 else 1 + Batch(bulk - 1, q[1..])
  }

  /** A turn stops early only for want of messages or after a FIN, which is the last one forwarded. */
  lemma {:induction false} BatchIsFull<P>(bulk: nat, q: seq<Message<P>>)
    ensures var n := Batch(bulk, q);
            && (n == bulk || n == |q| || (n > 0 && q[n - 1].Fin?))
            && (forall i :: 0 <= i < n - 1 ==> q[i].Data?)
    decreases bulk
  {
    if bulk > 0 && q != [] && q[0].Data? {
      BatchIsFull(bulk - 1, q[1..]);
      var n := Batch(bulk - 1, q[1..]);
      assert forall i :: 0 <= i < |q| - 1 ==> q[1..][i] == q[i + 1];
    }
  }

  /** The loop of `ntp_send_buff_data`: forwards messages in order until the batch is complete. */
  method Forward<P>(bulk: nat, q: seq<Message<P>>) returns (sent: seq<Message<P>>, rest: seq<Message<P>>, closing: bool)
    ensures sent == q[..Batch(bulk, q)] && rest == q[Batch(bulk, q)..]
    ensures closing <==> sent != [] && sent[|sent| - 1].Fin?
  {
    sent, rest, closing := [], q, false;
    for i := 0 to bulk
      invariant |sent| == i <= |q| && sent == q[..i] && rest == q[i..]
      invariant Batch(bulk, q) == i + Batch(bulk - i, rest)
      invariant forall j :: 0 <= j < i ==> sent[j].Data?
    {
      if rest == [] {
        return;
      }
      var m := rest[0];
      sent, rest := sent + [m], rest[1..];
      if m.Fin? {
        closing := true;
        return;
      }
    }
  }

  // ---------- spreading connections over partitions ----------

  /** `ntp_allocate_partition`: the index after the one handed out. */
  function NextPartition(i: nat, partitions: nat): nat
    requires partitions > 0
  {
    if (i + 1) % partitions == 0 then 0 else i + 1
  }

  /** The index after `k` connections. */
  function PartitionAfter(k: nat, partitions: nat): nat
    requires partitions > 0
  {
    if k == 0 then 0 else NextPartition(PartitionAfter(k - 1, partitions), partitions)
  }

  /** How many of the first `k` connections went to partition `i`. */
  function Load(k: nat, partitions: nat, i: nat): nat
    requires partitions > 0
  {
    if k == 0 then 0
    else Load(k - 1, partitions, i) + if PartitionAfter(k - 1, partitions) == i then 1 else 0
  }

  lemma NextIsWrap(i: nat, partitions: nat)
    requires i < partitions
    ensures NextPartition(i, partitions) == Wrap(i, partitions)
  {
    SlotIsRemainder(i + 1, partitions);
  }

  /** Connections go round the partitions. */
  lemma {:induction false} PartitionIsValid(k: nat, partitions: nat)
    requires partitions > 0
    ensures PartitionAfter(k, partitions) < partitions
    ensures k > 0 ==> PartitionAfter(k, partitions) == Wrap(PartitionAfter(k - 1, partitions), partitions)
  {
    if k > 0 {
      PartitionIsValid(k - 1, partitions);
      NextIsWrap(PartitionAfter(k - 1, partitions), partitions);
    }
  }

  lemma {:induction false} LoadsAre(k: nat, partitions: nat) returns (q: nat)
    requires partitions > 0
    ensures forall i :: 0 <= i < partitions ==>
              Load(k, partitions, i) == q + if i < PartitionAfter(k, partitions) then 1 else 0
  {
    if k == 0 {
      q := 0;
    } else {
      q := LoadsAre(k - 1, partitions);
      PartitionIsValid(k - 1, partitions);
      PartitionIsValid(k, partitions);
      if PartitionAfter(k, partitions) == 0 {
        q := q + 1;
      }
    }
  }

  /** The partitions' shares of any number of connections differ by at most one. */
  lemma PartitionsAreBalanced(k: nat, partitions: nat, i: nat, j: nat)
    requires i < partitions && j < partitions
    ensures Load(k, partitions, i) <= Load(k, partitions, j) + 1
  {
    var q := LoadsAre(k, partitions);
  }
}
