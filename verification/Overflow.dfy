/**
 * What becomes of a listener whose backlog holds as much as the ring of messages to its
 * application, or more: a confirmation can be dropped, and then no later one is in its place.
 */
module Overflow {
  import opened Options
  import opened Handshake
  import MaskRing
  import Ports

  // ---------- after a dropped confirmation ----------

  lemma StepKeepsKept(cf: Config, st: State, a: Label, l: nat)
    requires cf.Valid() && Ports.Typed(st.c.ports) && l in st.s.listeners && Dropped(st.s.listeners[l]) > 0
    ensures var s := Step(cf, st, a).s;
            l in s.listeners && Dropped(s.listeners[l]) > 0 && s.listeners[l].kept == st.s.listeners[l].kept
  {
  }

  /**
   * Once a confirmation was dropped, however the run goes on, `nts_accept` returns no socket of this
   * listener but those confirmed before.
   */
  lemma {:induction false} BrokenForGood(cf: Config, schedule: seq<Label>, more: seq<Label>, l: nat)
    requires cf.Valid() && l in Run(cf, schedule).s.listeners && Dropped(Run(cf, schedule).s.listeners[l]) > 0
    ensures var n, s' := Run(cf, schedule).s.listeners[l], Run(cf, schedule + more).s;
            && l in s'.listeners && Dropped(s'.listeners[l]) > 0 && s'.listeners[l].kept == n.kept
            && s'.listeners[l].accepted <= n.pushed && |s'.listeners[l].accepted| <= n.kept
    decreases |more|
  {
    hide Step;
    if more == [] {
      assert schedule + more == schedule;
    } else {
      var before := more[..|more| - 1];
      BrokenForGood(cf, schedule, before, l);
      assert (schedule + more)[..|schedule + more| - 1] == schedule + before;
      StepKeepsKept(cf, Run(cf, schedule + before), more[|more| - 1], l);
    }
    PushedStays(cf, schedule, more, l);
    hide Run;
    WhenAcceptFails(cf, schedule, l);
    WhenAcceptFails(cf, schedule + more, l);
  }

  lemma {:induction false} PushedStays(cf: Config, schedule: seq<Label>, more: seq<Label>, l: nat)
    requires cf.Valid() && l in Run(cf, schedule).s.listeners
    ensures var s' := Run(cf, schedule + more).s;
            l in s'.listeners && Run(cf, schedule).s.listeners[l].pushed <= s'.listeners[l].pushed
    decreases |more|
  {
    hide Step;
    if more == [] {
      assert schedule + more == schedule;
    } else {
      var before := more[..|more| - 1];
      PushedStays(cf, schedule, before, l);
      assert (schedule + more)[..|schedule + more| - 1] == schedule + before;
      StepKeepsPushed(cf, Run(cf, schedule + before), more[|more| - 1], l);
    }
  }

  lemma StepKeepsPushed(cf: Config, st: State, a: Label, l: nat)
    requires cf.Valid() && Ports.Typed(st.c.ports) && l in st.s.listeners
    ensures var s := Step(cf, st, a).s; l in s.listeners && st.s.listeners[l].pushed <= s.listeners[l].pushed
  {
  }

  /** From every quiet state behind a dropped confirmation, the application accepts itself into an endless wait. */
  lemma {:induction false} DroppedSticks(cf: Config, before: seq<Label>, l: nat) returns (p: seq<Label>)
    requires cf.Valid() && l in Run(cf, before).s.listeners
    requires Quiet(Run(cf, before)) && Dropped(Run(cf, before).s.listeners[l]) > 0
    ensures var st, st' := Run(cf, before), Run(cf, p);
            && l in st'.s.listeners && Stuck(st', l) && st'.c == st.c
            && st'.s.listeners[l].cap == st.s.listeners[l].cap
            && Dropped(st'.s.listeners[l]) == Dropped(st.s.listeners[l])
    decreases 2 * |Run(cf, before).s.listeners[l].confirms|
              + if Run(cf, before).s.listeners[l].app.AIdle? then 1 else 0
  {
    hide Run;
    LeftWithoutConfirmation(cf, before, l);
    var n := Run(cf, before).s.listeners[l];
    if n.app.AWait? && n.confirms == [] {
      p := before;
    } else {
      p := Extend(cf, before, Accept(l));
      p := DroppedSticks(cf, p, l);
    }
  }

  // ---------- one connection at a time ----------

  /** The server accepts the only SYN on its way. */
  lemma ServerAccepts(cf: Config, before: seq<Label>, client: nat, l: nat) returns (p: seq<Label>)
    requires cf.Valid()
    requires var st := Run(cf, before);
             && st.toS == [Syn(client, l)] && st.toC == [] && st.s.mon.SIdle? && l in st.s.listeners
             && |st.s.listeners[l].backlog| < st.s.listeners[l].cap
    ensures var st, st' := Run(cf, before), Run(cf, p);
            var r := Rec(l, client, st.s.nextSock, st.s.roundRobin);
            && st'.c == st.c && st'.toS == [] && st'.toC == [SynAck(r)] && st'.s.mon == SIdle
            && st'.s.nextSock == r.sockid + 1 && st'.s.proxy == st.s.proxy + [ProxyConn(l, client, r.part)]
            && st'.s.listeners == st.s.listeners[l := Push(st.s.listeners[l], r.sockid)]
  {
    hide Run;
    p := Extend(cf, before, ServerMon);
    p := Extend(cf, p, ServerProxy);
    p := Extend(cf, p, ServerMon);
  }

  /** The client answers the only SYN_ACK on its way, and the server takes the answer. */
  lemma ClientAnswers(cf: Config, before: seq<Label>, r: Rec) returns (p: seq<Label>)
    requires cf.Valid()
    requires var st := Run(cf, before);
             && st.toC == [SynAck(r)] && st.toS == [] && st.c.mon.CIdle? && st.s.mon.SIdle?
             && r.client in st.c.port2sock && st.c.port2sock[r.client] in st.c.socks
             && r.listen in st.s.listeners && r.sockid in st.s.listeners[r.listen].sockets
    ensures var st, st' := Run(cf, before), Run(cf, p);
            && Quiet(st') && st'.c.socks.Keys == st.c.socks.Keys && st'.c.ports == st.c.ports
            && st'.c.proxy == st.c.proxy + [ProxyConn(r.client, r.listen, r.part)]
            && st'.s.nextSock == st.s.nextSock && st'.s.proxy == st.s.proxy
            && st'.s.listeners ==
               st.s.listeners[r.listen := Confirm(cf.ring, st.s.listeners[r.listen], r.sockid)]
  {
    hide Run;
    p := Extend(cf, before, ClientMon);
    p := Extend(cf, p, ClientProxy);
    p := Extend(cf, p, ClientMon);
    p := Extend(cf, p, ServerMon);
  }

  /** A client socket is created and sends its SYN, when all is quiet. */
  lemma ClientConnects(cf: Config, before: seq<Label>, k: nat, l: nat) returns (p: seq<Label>)
    requires cf.Valid() && Quiet(Run(cf, before)) && k !in Run(cf, before).c.socks
    requires Ports.Allocate(Run(cf, before).c.ports).0.Some?
    ensures var st, st' := Run(cf, before), Run(cf, p);
            var (port, ports) := Ports.Allocate(st.c.ports);
            && st'.s == st.s && st'.toS == [Syn(port.value, l)] && st'.toC == [] && st'.c.mon == CIdle
            && st'.c.socks.Keys == st.c.socks.Keys + {k} && st'.c.ports == ports && st'.c.proxy == st.c.proxy
            && port.value in st'.c.port2sock && st'.c.port2sock[port.value] == k
  {
    hide Run, Ports.Allocate;
    p := Extend(cf, before, NewSock(k));
    p := Extend(cf, p, Connect(k, l));
  }

  /** A whole connection set-up, from quiet to quiet. */
  lemma ConnectOne(cf: Config, before: seq<Label>, k: nat, l: nat) returns (p: seq<Label>)
    requires cf.Valid() && Quiet(Run(cf, before)) && k !in Run(cf, before).c.socks
    requires l in Run(cf, before).s.listeners && Ports.Allocate(Run(cf, before).c.ports).0.Some?
    requires var n := Run(cf, before).s.listeners[l]; |n.backlog| < n.cap
    ensures var st, st' := Run(cf, before), Run(cf, p);
            var (port, ports) := Ports.Allocate(st.c.ports);
            var id := st.s.nextSock;
            && Quiet(st') && st'.c.socks.Keys == st.c.socks.Keys + {k} && st'.c.ports == ports
            && st'.c.proxy == st.c.proxy + [ProxyConn(port.value, l, st.s.roundRobin)]
            && st'.s.proxy == st.s.proxy + [ProxyConn(l, port.value, st.s.roundRobin)]
            && st'.s.listeners == st.s.listeners[l := Confirm(cf.ring, Push(st.s.listeners[l], id), id)]
  {
    hide Run, Ports.Allocate, Confirm;
    var st := Run(cf, before);
    var port := Ports.Allocate(st.c.ports).0.value;
    p := ClientConnects(cf, before, k, l);
    p := ServerAccepts(cf, p, port, l);
    var r := Rec(l, port, st.s.nextSock, st.s.roundRobin);
    p := ClientAnswers(cf, p, r);
    var n := st.s.listeners[l];
    assert st.s.listeners[l := Push(n, r.sockid)][l := Confirm(cf.ring, Push(n, r.sockid), r.sockid)]
        == st.s.listeners[l := Confirm(cf.ring, Push(n, r.sockid), r.sockid)];
  }

  // ---------- filling the message ring ----------

  /** The first `m` ports are in use, and the others are queued in order. */
  predicate FirstUsed(ports: Ports.State, m: nat, all: nat) {
    && m <= all && |ports.used| == all && ports.queue == seq(all - m, i => m + i)
    && forall j :: 0 <= j < all ==> (ports.used[j] <==> j < m)
  }

  lemma NextPort(ports: Ports.State, m: nat, all: nat)
    requires FirstUsed(ports, m, all) && m < all
    ensures Ports.Typed(ports) && Ports.Allocate(ports).0 == Some(m)
    ensures FirstUsed(Ports.Allocate(ports).1, m + 1, all)
  {
    assert ports.queue[0] == m;
    assert ports.queue[1..] == seq(all - (m + 1), i => m + 1 + i);
  }

  /** `m` clients have connected; the application is about to compare the first one's socket. */
  predicate Filled(cf: Config, st: State, l: nat, cap: nat, m: nat) {
    && Quiet(st) && FirstUsed(st.c.ports, m, cf.ports) && (forall k :: k in st.c.socks ==> k < m)
    && l in st.s.listeners && FilledListener(cf.ring, st.s.listeners[l], cap, m)
  }

  predicate FilledListener(ring: nat, n: Listener, cap: nat, m: nat) {
    && n.cap == cap && n.app.AWait? && |n.backlog| + 1 == m == |n.confirmed|
    && |n.told| == |n.confirms| == if m <= ring then m else ring
  }

  lemma FillOne(cf: Config, l: nat, backlog: nat) returns (p: seq<Label>)
    requires cf.Valid() && l < cf.ports && backlog > 0 && MaskRing.Room(backlog) > 0
    ensures Filled(cf, Run(cf, p), l, MaskRing.Room(backlog), 1)
  {
    p := [];
    var st := Run(cf, p);
    assert FirstUsed(st.c.ports, 0, cf.ports);
    hide Run, Ports.Allocate;
    p := Extend(cf, p, Listen(l, backlog));
    NextPort(st.c.ports, 0, cf.ports);
    p := ConnectOne(cf, p, 0, l);
    p := Extend(cf, p, Accept(l));
  }

  /** Any number of clients up to what the backlog and the one taken off it allow. */
  lemma {:induction false} FillMore(cf: Config, l: nat, backlog: nat, m: nat) returns (p: seq<Label>)
    requires cf.Valid() && l < cf.ports && backlog > 0 && MaskRing.Room(backlog) > 0
    requires 0 < m <= MaskRing.Room(backlog) + 1 && m <= cf.ports
    ensures Filled(cf, Run(cf, p), l, MaskRing.Room(backlog), m)
    decreases m
  {
    if m == 1 {
      p := FillOne(cf, l, backlog);
    } else {
      hide Run, Ports.Allocate, FirstUsed;
      var before := FillMore(cf, l, backlog, m - 1);
      NextPort(Run(cf, before).c.ports, m - 1, cf.ports);
      p := ConnectOne(cf, before, m - 1, l);
    }
  }

  // ---------- exactly when ----------

  /** Some run of such a listener drops a confirmation, fails a comparison, or waits in vain. */
  ghost predicate CanDrop(cf: Config, l: nat, cap: nat)
    requires cf.Valid()
  {
    exists p :: l in Run(cf, p).s.listeners && Run(cf, p).s.listeners[l].cap == cap
                && Dropped(Run(cf, p).s.listeners[l]) > 0
  }

  ghost predicate CanReject(cf: Config, l: nat, cap: nat)
    requires cf.Valid()
  {
    exists p :: l in Run(cf, p).s.listeners && Run(cf, p).s.listeners[l].cap == cap
                && Run(cf, p).s.listeners[l].rejected
  }

  ghost predicate CanStick(cf: Config, l: nat, cap: nat)
    requires cf.Valid()
  {
    exists p :: l in Run(cf, p).s.listeners && Run(cf, p).s.listeners[l].cap == cap && Stuck(Run(cf, p), l)
  }

  /** One client more than the message ring holds: the last confirmation is dropped. */
  lemma DroppingRun(cf: Config, l: nat, backlog: nat) returns (p: seq<Label>)
    requires cf.Valid() && l < cf.ports && cf.ring < cf.ports && backlog > 0 && MaskRing.Room(backlog) >= cf.ring
    ensures Filled(cf, Run(cf, p), l, MaskRing.Room(backlog), cf.ring + 1)
    ensures Dropped(Run(cf, p).s.listeners[l]) == 1
  {
    p := FillMore(cf, l, backlog, cf.ring + 1);
  }

  /** The application then accepts all it can, and waits for the confirmation that was dropped. */
  lemma StuckRun(cf: Config, l: nat, backlog: nat) returns (p: seq<Label>)
    requires cf.Valid() && l < cf.ports && cf.ring < cf.ports && backlog > 0 && MaskRing.Room(backlog) >= cf.ring
    ensures var st := Run(cf, p);
            && l in st.s.listeners && st.s.listeners[l].cap == MaskRing.Room(backlog) && Stuck(st, l)
            && Dropped(st.s.listeners[l]) == 1 && FirstUsed(st.c.ports, cf.ring + 1, cf.ports)
            && forall k :: k in st.c.socks ==> k < cf.ring + 1
  {
    hide Run;
    p := DroppingRun(cf, l, backlog);
    p := DroppedSticks(cf, p, l);
  }

  /** If another client connects, its confirmation meets the wrong socket. */
  lemma RejectingRun(cf: Config, l: nat, backlog: nat) returns (p: seq<Label>)
    requires cf.Valid() && l < cf.ports && cf.ring + 1 < cf.ports && backlog > 0 && MaskRing.Room(backlog) >= cf.ring
    ensures var s := Run(cf, p).s;
            l in s.listeners && s.listeners[l].cap == MaskRing.Room(backlog) && s.listeners[l].rejected
  {
    hide Run, Ports.Allocate, FirstUsed;
    var before := StuckRun(cf, l, backlog);
    LeftWithoutConfirmation(cf, before, l);
    WhenAcceptFails(cf, before, l);
    NextPort(Run(cf, before).c.ports, cf.ring + 1, cf.ports);
    p := ConnectOne(cf, before, cf.ring + 1, l);
    p := Extend(cf, p, Accept(l));
    WhenAcceptFails(cf, p, l);
  }

  /**
   * A listener's runs can drop a confirmation, fail the comparison of `nts_accept`, or leave it
   * waiting for ever, each if and only if its backlog holds as much as the message ring or more.
   */
  lemma WhenListenerIsUnsafe(cf: Config, l: nat, backlog: nat)
    requires cf.Valid() && l < cf.ports && cf.ring + 1 < cf.ports && backlog > 0
    ensures CanDrop(cf, l, MaskRing.Room(backlog)) <==> MaskRing.Room(backlog) >= cf.ring
    ensures CanReject(cf, l, MaskRing.Room(backlog)) <==> MaskRing.Room(backlog) >= cf.ring
    ensures CanStick(cf, l, MaskRing.Room(backlog)) <==> MaskRing.Room(backlog) >= cf.ring
  {
    hide Run, Dropped, Stuck;
    var cap := MaskRing.Room(backlog);
    if cap >= cf.ring {
      var d := DroppingRun(cf, l, backlog);
      var s := StuckRun(cf, l, backlog);
      var r := RejectingRun(cf, l, backlog);
    } else {
      forall p | l in Run(cf, p).s.listeners && Run(cf, p).s.listeners[l].cap == cap
        ensures Dropped(Run(cf, p).s.listeners[l]) == 0 && !Run(cf, p).s.listeners[l].rejected && !Stuck(Run(cf, p), l)
      {
        AcceptNeverFails(cf, p, l);
        if Stuck(Run(cf, p), l) {
          AcceptIsNeverStuck(cf, p, l);
        }
      }
    }
  }

  /** With a ring of 16 slots, which holds 15 messages: exactly the backlogs that are multiples of 16. */
  lemma WhenBacklogIsUnsafe(cf: Config, l: nat, backlog: nat)
    requires cf.Valid() && cf.ring == MaskRing.Room(16) && l < cf.ports && 16 < cf.ports && backlog > 0
    ensures CanDrop(cf, l, MaskRing.Room(backlog)) <==> backlog % 16 == 0
    ensures CanReject(cf, l, MaskRing.Room(backlog)) <==> backlog % 16 == 0
    ensures CanStick(cf, l, MaskRing.Room(backlog)) <==> backlog % 16 == 0
  {
    hide CanDrop, CanReject, CanStick;
    MaskRing.PowerOfPower(16);
    MaskRing.MultiplesOfSixteen(backlog);
    WhenListenerIsUnsafe(cf, l, backlog);
  }
}
