/**
 * Connection set-up between two monitors over a FIFO TCP connection: SYN, SYN_ACK and
 * CLIENT_SYN_ACK, with the applications at both ends and a proxy on each node that is asked to
 * create the connection and answers later.  Any number of connections to any number of listeners
 * are in progress at once, and all actors interleave in any way.
 */
module Handshake {
  import opened Options
  import MaskRing
  import Ports
  import SendList

  /** A connection as SYN_ACK describes it. */
  datatype Rec = Rec(listen: nat, client: nat, sockid: nat, part: nat)

  datatype ToServer = Syn(client: nat, listen: nat) | ClientSynAck(client: nat, listen: nat, sockid: nat)

  datatype ToClient = SynAck(r: Rec) | Refused(client: nat)

  /** A connection as a proxy files it: source port, destination port, partition. */
  datatype ProxyConn = ProxyConn(src: nat, dst: nat, part: nat)

  /** `Connecting` from the SYN on, while `nts_connect` waits. */
  datatype SockState = New | Bound | Connecting | Established

  datatype Sock = Sock(state: SockState, port: nat)

  datatype ClientMonitor = CIdle | CAsk(r: Rec) | CTold(r: Rec)

  datatype Client = Client(
    socks: map<nat, Sock>, port2sock: map<nat, nat>, ports: Ports.State,
    mon: ClientMonitor, proxy: seq<ProxyConn>)

  datatype App = AIdle | AWait(sockid: nat)

  /**
   * A listener: its backlog and how much that holds, the accepted sockets (true once ESTABLISHED),
   * the confirmations in the message ring that `nts_accept` reads, and a record: ids pushed onto
   * the backlog, confirmed by the client, told to the application, how many of these before the
   * first one that was dropped, ids accepted, and whether a comparison failed.
   */
  datatype Listener = Listener(
    cap: nat, backlog: seq<nat>, sockets: map<nat, bool>, confirms: seq<nat>, app: App,
    pushed: seq<nat>, confirmed: seq<nat>, told: seq<nat>, kept: nat, accepted: seq<nat>, rejected: bool)

  datatype ServerMonitor = SIdle | SAsk(client: nat, listen: nat, sockid: nat) | STold(r: Rec)

  datatype Server = Server(
    listeners: map<nat, Listener>, nextSock: nat, mon: ServerMonitor, proxy: seq<ProxyConn>, roundRobin: nat)

  /**
   * Connections accepted by the server, in order; how many of their SYN_ACKs the client has
   * handled; connections the client has established, in order; how many the server has confirmed;
   * the client ports whose SYN was refused.
   */
  datatype Log = Log(acc: seq<Rec>, handled: nat, est: seq<Rec>, done: nat, refused: seq<nat>)

  datatype State = State(c: Client, s: Server, toS: seq<ToServer>, toC: seq<ToClient>, g: Log)

  datatype Label =
    | NewSock(id: nat)
    | Bind(id: nat, port: nat)
    | Connect(id: nat, listen: nat)
    | ClientMon
    | ClientProxy
    | Listen(port: nat, backlog: nat)
    | ServerMon
    | ServerProxy
    | Accept(listen: nat)

  /** The monitors' `max_port`, the partitions of the bridge, and how many messages a message ring holds. */
  datatype Config = Config(ports: nat, partitions: nat, ring: nat) {
    predicate Valid() { partitions > 0 && ring > 0 }
  }

  // ---------- the client's node ----------

  /**
   * `nts_connect`, and `handle_msg_nts_connect` at the monitor: the socket gets a port and is filed
   * under it.  The library refuses a socket that is not CLOSED, so a bound one never gets to the
   * monitor, which would take it.
   */
  function StepConnect(st: State, id: nat, listen: nat): State
    requires Ports.Typed(st.c.ports)
  {
    if id !in st.c.socks then st
    else
      var k := st.c.socks[id];
      if k.state.New? then
        var (p, ports) := Ports.Allocate(st.c.ports);
        if p.None? then st
        else
          st.(c := st.c.(socks := st.c.socks[id := Sock(Connecting, p.value)],
                         port2sock := st.c.port2sock[p.value := id], ports := ports),
              toS := st.toS + [Syn(p.value, listen)])
      else st
  }

  function StepBind(st: State, id: nat, port: nat): State
    requires Ports.Typed(st.c.ports)
  {
    if id in st.c.socks && st.c.socks[id].state.New? then
      var (ok, ports) := Ports.Claim(st.c.ports, port);
      if ok then st.(c := st.c.(socks := st.c.socks[id := Sock(Bound, port)], ports := ports)) else st
    else st
  }

  /** `handle_nt_syn_ack_msg`: before the proxy is asked, and after it has answered. */
  function StepClientMon(st: State): State {
    match st.c.mon
    case CIdle =>
      if st.toC == [] then st
      else if st.toC[0].Refused? then st.(toC := st.toC[1..])
      else
        var r := st.toC[0].r;
        st.(toC := st.toC[1..], g := st.g.(handled := st.g.handled + 1),
            c := if r.client in st.c.port2sock then st.c.(mon := CAsk(r)) else st.c)
    case CAsk(_) => st
    case CTold(r) =>
      var c := st.c.(mon := CIdle);
      var c' :=
        if r.client in c.port2sock && c.port2sock[r.client] in c.socks then
          var id := c.port2sock[r.client];
          c.(socks := c.socks[id := c.socks[id].(state := Established)])
        else c;
      st.(c := c', toS := st.toS + [ClientSynAck(r.client, r.listen, r.sockid)], g := st.g.(est := st.g.est + [r]))
  }

  function StepClientProxy(st: State): State {
    match st.c.mon
    case CAsk(r) =>
      st.(c := st.c.(mon := CTold(r), proxy := st.c.proxy + [ProxyConn(r.client, r.listen, r.part)]))
    case _ => st
  }

  // ---------- the server's node ----------

  function SetListener(st: State, l: nat, n: Listener): State {
    st.(s := st.s.(listeners := st.s.listeners[l := n]))
  }

  function NewListener(cap: nat): Listener {
    Listener(cap, [], map[], [], AIdle, [], [], [], 0, [], false)
  }

  /** The application is told of a confirmation, unless its message ring is full: then nobody is. */
  function Tell(ring: nat, n: Listener, sockid: nat): Listener {
    if |n.confirms| < ring then
      n.(confirms := n.confirms + [sockid], told := n.told + [sockid],
         kept := if Dropped(n) == 0 then n.kept + 1 else n.kept)
    else n
  }

  /** How many confirmations were dropped. */
  function Dropped(n: Listener): int { |n.confirmed| - |n.told| }

  /** The client's confirmation makes the socket established and tells the application of it. */
  function Confirm(ring: nat, n: Listener, sockid: nat): Listener {
    Tell(ring, n, sockid).(sockets := n.sockets[sockid := true], confirmed := n.confirmed + [sockid])
  }

  /** A connection is accepted: its socket is created and joins the backlog. */
  function Push(n: Listener, sockid: nat): Listener {
    n.(sockets := n.sockets[sockid := false], backlog := n.backlog + [sockid], pushed := n.pushed + [sockid])
  }

  /** `handle_nt_syn_msg` and `handle_nt_client_syn_ack_msg`. */
  function StepServerMon(cf: Config, st: State): State {
    match st.s.mon
    case SIdle =>
      if st.toS == [] then st
      else
        var st' := st.(toS := st.toS[1..]);
        (match st.toS[0]
         case Syn(client, listen) =>
           if listen !in st.s.listeners || |st.s.listeners[listen].backlog| >= st.s.listeners[listen].cap
           then st'.(toC := st.toC + [Refused(client)], g := st.g.(refused := st.g.refused + [client]))
           else st'.(s := st.s.(mon := SAsk(client, listen, st.s.nextSock), nextSock := st.s.nextSock + 1))
         case ClientSynAck(client, listen, sockid) =>
           var st'' := st'.(g := st.g.(done := st.g.done + 1));
           if listen in st.s.listeners && sockid in st.s.listeners[listen].sockets then
             var n := st.s.listeners[listen];
             SetListener(st'', listen, Confirm(cf.ring, n, sockid))
           else st''.(toC := st.toC + [Refused(client)]))
    case SAsk(_, _, _) => st
    case STold(r) =>
      var st' := st.(s := st.s.(mon := SIdle), toC := st.toC + [SynAck(r)], g := st.g.(acc := st.g.acc + [r]));
      if r.listen in st.s.listeners then
        var n := st.s.listeners[r.listen];
        SetListener(st', r.listen, Push(n, r.sockid))
      else st'
  }

  function StepServerProxy(cf: Config, st: State): State
    requires cf.Valid()
  {
    match st.s.mon
    case SAsk(client, listen, sockid) =>
      var part := st.s.roundRobin;
      st.(s := st.s.(mon := STold(Rec(listen, client, sockid, part)),
                     proxy := st.s.proxy + [ProxyConn(listen, client, part)],
                     roundRobin := SendList.NextPartition(part, cf.partitions)))
    case _ => st
  }

  /** `nts_accept`: take a socket off the backlog, then compare with the next confirmation. */
  function StepAccept(n: Listener): Listener {
    match n.app
    case AIdle => if n.backlog == [] then n else n.(app := AWait(n.backlog[0]), backlog := n.backlog[1..])
    case AWait(sockid) =>
      if n.confirms == [] then n
      else if n.confirms[0] == sockid then
        n.(app := AIdle, confirms := n.confirms[1..], accepted := n.accepted + [sockid])
      else n.(app := AIdle, confirms := n.confirms[1..], rejected := true)
  }

  function Step(cf: Config, st: State, l: Label): State
    requires cf.Valid() && Ports.Typed(st.c.ports)
  {
    match l
    case NewSock(id) => if id in st.c.socks then st else st.(c := st.c.(socks := st.c.socks[id := Sock(New, 0)]))
    case Bind(id, port) => StepBind(st, id, port)
    case Connect(id, listen) => StepConnect(st, id, listen)
    case ClientMon => StepClientMon(st)
    case ClientProxy => StepClientProxy(st)
    case Listen(port, backlog) =>
      if port in st.s.listeners || port >= cf.ports || backlog == 0 then st
      else SetListener(st, port, NewListener(MaskRing.Room(backlog)))
    case ServerMon => StepServerMon(cf, st)
    case ServerProxy => StepServerProxy(cf, st)
    case Accept(l) => if l in st.s.listeners then SetListener(st, l, StepAccept(st.s.listeners[l])) else st
  }

  // ---------- what the channels carry ----------

  function SynAcks(ch: seq<ToClient>): seq<Rec> {
    if ch == [] then [] else SynAcks(ch[..|ch| - 1]) + (if ch[|ch| - 1].SynAck? then [ch[|ch| - 1].r] else [])
  }

  function Syns(ch: seq<ToServer>): seq<nat> {
    if ch == [] then [] else Syns(ch[..|ch| - 1]) + (if ch[|ch| - 1].Syn? then [ch[|ch| - 1].client] else [])
  }

  function Acks(ch: seq<ToServer>): seq<ToServer> {
    if ch == [] then [] else Acks(ch[..|ch| - 1]) + (if ch[|ch| - 1].ClientSynAck? then [ch[|ch| - 1]] else [])
  }

  /** The acknowledgements that the client sends for connections. */
  function AckOf(r: Rec): ToServer { ClientSynAck(r.client, r.listen, r.sockid) }

  function AcksOf(rs: seq<Rec>): (a: seq<ToServer>)
    ensures |a| == |rs| && forall i :: 0 <= i < |rs| ==> a[i] == AckOf(rs[i])
  {
    seq(|rs|, i requires 0 <= i < |rs| => AckOf(rs[i]))
  }

  /** The socket ids of one listener's connections, in order. */
  function Ids(l: nat, rs: seq<Rec>): seq<nat> {
    if rs == [] then []
    else Ids(l, rs[..|rs| - 1]) + (if rs[|rs| - 1].listen == l then [rs[|rs| - 1].sockid] else [])
  }

  function InClient(mon: ClientMonitor): seq<Rec> {
    if mon.CIdle? then [] else [mon.r]
  }

  function InServer(mon: ServerMonitor): seq<nat> {
    match mon case SIdle => [] case SAsk(client, _, _) => [client] case STold(r) => [r.client]
  }

  function ClientsOf(rs: seq<Rec>): (a: seq<nat>)
    ensures |a| == |rs| && forall i :: 0 <= i < |rs| ==> a[i] == rs[i].client
  {
    seq(|rs|, i requires 0 <= i < |rs| => rs[i].client)
  }

  function AtServer(rs: seq<Rec>): (a: seq<ProxyConn>)
    ensures |a| == |rs| && forall i :: 0 <= i < |rs| ==> a[i] == ProxyConn(rs[i].listen, rs[i].client, rs[i].part)
  {
    seq(|rs|, i requires 0 <= i < |rs| => ProxyConn(rs[i].listen, rs[i].client, rs[i].part))
  }

  function AtClient(rs: seq<Rec>): (a: seq<ProxyConn>)
    ensures |a| == |rs| && forall i :: 0 <= i < |rs| ==> a[i] == ProxyConn(rs[i].client, rs[i].listen, rs[i].part)
  {
    seq(|rs|, i requires 0 <= i < |rs| => ProxyConn(rs[i].client, rs[i].listen, rs[i].part))
  }

  // ---------- the invariant ----------

  predicate NoRepeats(s: seq<nat>) {
    forall i, j :: 0 <= i < j < |s| ==> s[i] != s[j]
  }

  /** Sockets have ports of their own; exactly the sockets that connected are on file under theirs. */
  predicate PortsInv(c: Client) {
    && Ports.Typed(c.ports)
    && (forall i :: i in c.socks && !c.socks[i].state.New? ==> Ports.Used(c.ports, c.socks[i].port))
    && (forall i, j :: i in c.socks && j in c.socks && i != j && !c.socks[i].state.New? && !c.socks[j].state.New? ==>
          c.socks[i].port != c.socks[j].port)
    && (forall p :: p in c.port2sock ==>
          && c.port2sock[p] in c.socks && c.socks[c.port2sock[p]].port == p
          && Connected(c.socks[c.port2sock[p]]))
    && (forall i :: i in c.socks && Connected(c.socks[i]) ==> c.socks[i].port in c.port2sock)
  }

  predicate Connected(k: Sock) { k.state.Connecting? || k.state.Established? }

  /** Each socket that connected sent exactly one SYN, from its own port. */
  ghost predicate SynOnce(socks: map<nat, Sock>, order: seq<nat>) {
    && NoRepeats(order)
    && (forall i :: 0 <= i < |order| ==> HasOwner(socks, order[i]))
    && (forall k :: k in socks && Connected(socks[k]) ==> socks[k].port in order)
  }

  /** Where SYNs are: refused, accepted, with the server's monitor, on their way. */
  function SynPlaces(st: State): seq<nat> {
    st.g.refused + ClientsOf(st.g.acc) + InServer(st.s.mon) + Syns(st.toS)
  }

  ghost predicate HasOwner(socks: map<nat, Sock>, port: nat) {
    exists k :: k in socks && socks[k].port == port && Connected(socks[k])
  }

  /** SYN_ACKs on their way are those of the accepted connections not handled yet. */
  predicate OutInv(toC: seq<ToClient>, acc: seq<Rec>, handled: nat) {
    handled <= |acc| && SynAcks(toC) == acc[handled..]
  }

  /** The connections handled get established, in order. */
  predicate HeldInv(handled: seq<Rec>, est: seq<Rec>, mon: ClientMonitor) {
    handled == est + InClient(mon)
  }

  /** CLIENT_SYN_ACKs on their way are those of the established connections not confirmed yet. */
  predicate BackInv(toS: seq<ToServer>, est: seq<Rec>, done: nat) {
    done <= |est| && Acks(toS) == AcksOf(est[done..])
  }

  predicate ProxyInv(atClient: seq<ProxyConn>, cmon: ClientMonitor, atServer: seq<ProxyConn>, smon: ServerMonitor,
                     acc: seq<Rec>, est: seq<Rec>) {
    && atServer == AtServer(acc + (if smon.STold? then [smon.r] else []))
    && atClient == AtClient(est + (if cmon.CTold? then [cmon.r] else []))
  }

  predicate EstInv(port2sock: map<nat, nat>, socks: map<nat, Sock>, est: seq<Rec>) {
    && (forall i :: 0 <= i < |est| ==>
          && est[i].client in port2sock && port2sock[est[i].client] in socks
          && socks[port2sock[est[i].client]].state.Established?)
    && (forall k :: k in socks && socks[k].state.Established? ==> socks[k].port in ClientsOf(est))
  }

  /** Accepted sockets have ids of their own, all handed out before, on listeners that exist. */
  predicate IdsInv(listeners: set<nat>, nextSock: nat, mon: ServerMonitor, acc: seq<Rec>) {
    && (forall i :: 0 <= i < |acc| ==> acc[i].sockid < nextSock && acc[i].listen in listeners)
    && (forall i, j :: 0 <= i < j < |acc| ==> acc[i].sockid != acc[j].sockid)
    && match mon
       case SIdle => true
       case SAsk(_, l, id) => l in listeners && NewId(id, nextSock, acc)
       case STold(r) => r.listen in listeners && NewId(r.sockid, nextSock, acc)
  }

  predicate NewId(id: nat, nextSock: nat, acc: seq<Rec>) {
    id < nextSock && forall i :: 0 <= i < |acc| ==> acc[i].sockid != id
  }

  /** What `nts_accept` has consumed of a listener's backlog and confirmations, and its answers. */
  predicate AcceptInv(n: Listener, pushed: seq<nat>, confirmed: seq<nat>) {
    && n.pushed == pushed && n.confirmed == confirmed && ToldInv(n)
    && |n.confirms| <= |n.told| && n.confirms == n.told[Consumed(n)..]
    && 0 <= Taken(n) <= |pushed| && n.backlog == pushed[Taken(n)..]
    && (n.app.AWait? ==> n.app.sockid == pushed[Consumed(n)])
    && n.accepted == n.told[..Min(Consumed(n), n.kept)] && (n.rejected <==> Consumed(n) > n.kept)
  }

  /** What was told before the first dropped confirmation is in place; what was told after it comes too early. */
  predicate ToldInv(n: Listener) {
    && n.kept <= |n.told| <= |n.confirmed| && n.told[..n.kept] == n.confirmed[..n.kept]
    && (Dropped(n) == 0 ==> n.kept == |n.told|)
    && (forall i :: n.kept <= i < |n.told| ==> n.told[i] in n.confirmed[i + 1..])
  }

  function Min(a: int, b: int): int { if a <= b then a else b }

  /** How many confirmations have been compared. */
  function Consumed(n: Listener): int { |n.told| - |n.confirms| }

  /** How many sockets have been taken off the backlog. */
  function Taken(n: Listener): int { Consumed(n) + if n.app.AWait? then 1 else 0 }

  /** The accepted sockets, and which of them are ESTABLISHED. */
  ghost predicate SocketsInv(sockets: map<nat, bool>, pushed: seq<nat>, confirmed: seq<nat>) {
    && (forall id :: id in sockets <==> id in pushed)
    && (forall id :: id in confirmed ==> id in pushed)
    && (forall id :: id in sockets ==> (sockets[id] <==> id in confirmed))
  }

  ghost predicate ListenersInv(listeners: map<nat, Listener>, acc: seq<Rec>, confirmed: seq<Rec>) {
    forall l :: l in listeners ==> ListenerInv(listeners[l], Ids(l, acc), Ids(l, confirmed))
  }

  ghost predicate ListenerInv(n: Listener, pushed: seq<nat>, confirmed: seq<nat>) {
    AcceptInv(n, pushed, confirmed) && SocketsInv(n.sockets, pushed, confirmed)
  }

  /** There is room for the connection that the server monitor is working on. */
  predicate BacklogInv(listeners: map<nat, Listener>, mon: ServerMonitor) {
    && (forall l :: l in listeners ==> |listeners[l].backlog| <= listeners[l].cap)
    && match mon
       case SIdle => true
       case SAsk(_, l, _) => l in listeners && |listeners[l].backlog| < listeners[l].cap
       case STold(r) => r.listen in listeners && |listeners[r.listen].backlog| < listeners[r.listen].cap
  }

  ghost predicate Inv(st: State) {
    var c, s, g := st.c, st.s, st.g;
    && PortsInv(c)
    && SynOnce(c.socks, SynPlaces(st))
    && OutInv(st.toC, g.acc, g.handled)
    && HeldInv(g.acc[..g.handled], g.est, c.mon)
    && BackInv(st.toS, g.est, g.done)
    && ProxyInv(c.proxy, c.mon, s.proxy, s.mon, g.acc, g.est)
    && EstInv(c.port2sock, c.socks, g.est)
    && IdsInv(s.listeners.Keys, s.nextSock, s.mon, g.acc)
    && ListenersInv(s.listeners, g.acc, g.est[..g.done])
    && BacklogInv(s.listeners, s.mon)
  }

  // ---------- what the channels carry, split ----------

  lemma {:induction false} SynAcksSplit(a: seq<ToClient>, b: seq<ToClient>)
    ensures SynAcks(a + b) == SynAcks(a) + SynAcks(b)
    decreases |b|
  {
    if b == [] {
      assert a + b == a;
    } else {
      SynAcksSplit(a, b[..|b| - 1]);
      assert (a + b)[..|a + b| - 1] == a + b[..|b| - 1];
    }
  }

  lemma {:induction false} SynsSplit(a: seq<ToServer>, b: seq<ToServer>)
    ensures Syns(a + b) == Syns(a) + Syns(b)
    decreases |b|
  {
    if b == [] {
      assert a + b == a;
    } else {
      SynsSplit(a, b[..|b| - 1]);
      assert (a + b)[..|a + b| - 1] == a + b[..|b| - 1];
    }
  }

  lemma {:induction false} AcksSplit(a: seq<ToServer>, b: seq<ToServer>)
    ensures Acks(a + b) == Acks(a) + Acks(b)
    decreases |b|
  {
    if b == [] {
      assert a + b == a;
    } else {
      AcksSplit(a, b[..|b| - 1]);
      assert (a + b)[..|a + b| - 1] == a + b[..|b| - 1];
    }
  }

  lemma ToServerSplit(a: seq<ToServer>, b: seq<ToServer>)
    ensures Syns(a + b) == Syns(a) + Syns(b) && Acks(a + b) == Acks(a) + Acks(b)
  {
    SynsSplit(a, b);
    AcksSplit(a, b);
  }

  lemma {:induction false} IdsSplit(l: nat, a: seq<Rec>, b: seq<Rec>)
    ensures Ids(l, a + b) == Ids(l, a) + Ids(l, b)
    decreases |b|
  {
    if b == [] {
      assert a + b == a;
    } else {
      IdsSplit(l, a, b[..|b| - 1]);
      assert (a + b)[..|a + b| - 1] == a + b[..|b| - 1];
    }
  }

  /** A connection of the listener with this socket id. */
  predicate IsOf(r: Rec, l: nat, id: nat) { r.listen == l && r.sockid == id }

  lemma {:induction false} IdsComeFrom(l: nat, rs: seq<Rec>, id: nat)
    ensures id in Ids(l, rs) <==> exists i :: 0 <= i < |rs| && IsOf(rs[i], l, id)
    decreases |rs|
  {
    if rs != [] {
      var n := |rs| - 1;
      IdsComeFrom(l, rs[..n], id);
      if id in Ids(l, rs) {
        if id in Ids(l, rs[..n]) {
          var i :| 0 <= i < n && IsOf(rs[..n][i], l, id);
          assert IsOf(rs[i], l, id);
        } else {
          assert IsOf(rs[n], l, id);
        }
      }
      if i :| 0 <= i < |rs| && IsOf(rs[i], l, id) {
        if i < n {
          assert IsOf(rs[..n][i], l, id);
        }
      }
    }
  }

  lemma SynOnceKept(socks: map<nat, Sock>, socks': map<nat, Sock>, order: seq<nat>)
    requires SynOnce(socks, order)
    requires forall k :: k in socks && Connected(socks[k]) ==>
               k in socks' && socks'[k].port == socks[k].port && Connected(socks'[k])
    requires forall k :: k in socks' && Connected(socks'[k]) ==>
               k in socks && socks[k].port == socks'[k].port && Connected(socks[k])
    ensures SynOnce(socks', order)
  {
    forall i | 0 <= i < |order|
      ensures HasOwner(socks', order[i])
    {
      assert HasOwner(socks, order[i]);
      var k :| k in socks && socks[k].port == order[i] && Connected(socks[k]);
      assert socks'[k].port == order[i] && Connected(socks'[k]);
    }
  }

  /** A socket gets port `p`, which no SYN has used, and its SYN joins the others. */
  lemma SynOnceMore(socks: map<nat, Sock>, order: seq<nat>, id: nat, p: nat)
    requires SynOnce(socks, order) && id in socks && !Connected(socks[id])
    requires forall i :: 0 <= i < |order| ==> order[i] != p
    ensures SynOnce(socks[id := Sock(Connecting, p)], order + [p])
  {
    var socks', longer := socks[id := Sock(Connecting, p)], order + [p];
    forall i | 0 <= i < |longer|
      ensures HasOwner(socks', longer[i])
    {
      if i < |order| {
        assert HasOwner(socks, order[i]);
        var k :| k in socks && socks[k].port == order[i] && Connected(socks[k]);
        assert socks'[k] == socks[k];
      } else {
        assert socks'[id].port == p;
      }
    }
    assert longer[|order|] == p;
  }

  /** The order in which SYNs are listed does not matter. */
  lemma SynOnceMoved(socks: map<nat, Sock>, refused: seq<nat>, a: seq<nat>, x: nat, b: seq<nat>)
    requires SynOnce(socks, refused + a + [x] + b)
    ensures SynOnce(socks, (refused + [x]) + a + [] + b)
  {
    hide HasOwner, NoRepeats;
    var from, to := refused + a + [x] + b, (refused + [x]) + a + [] + b;
    MovedStaysDistinct(refused, a, x, b);
    forall y
      ensures y in from <==> y in to
    {
      assert y in from <==> y in refused || y in a || y == x || y in b;
    }
    forall i | 0 <= i < |to|
      ensures HasOwner(socks, to[i])
    {
      assert to[i] in to && to[i] in from;
      var j :| 0 <= j < |from| && from[j] == to[i];
      assert HasOwner(socks, from[j]);
    }
  }

  lemma MovedStaysDistinct(refused: seq<nat>, a: seq<nat>, x: nat, b: seq<nat>)
    requires NoRepeats(refused + a + [x] + b)
    ensures NoRepeats((refused + [x]) + a + [] + b)
  {
    var from, to := refused + a + [x] + b, (refused + [x]) + a + [] + b;
    var n, m := |refused|, |refused| + |a|;
    assert from[m] == x;
    forall i | 0 <= i < |to|
      ensures to[i] == from[if i < n || i > m then i else if i == n then m else i - 1]
    {
    }
  }

  // ---------- steps at the client ----------

  lemma SynIsNew(socks: map<nat, Sock>, order: seq<nat>, p: nat)
    requires SynOnce(socks, order)
    requires forall k :: k in socks && Connected(socks[k]) ==> socks[k].port != p
    ensures forall i :: 0 <= i < |order| ==> order[i] != p
  {
    forall i | 0 <= i < |order|
      ensures order[i] != p
    {
      assert HasOwner(socks, order[i]);
    }
  }

  lemma SendSyn(socks: map<nat, Sock>, id: nat, p: nat, a: seq<nat>, toS: seq<ToServer>, listen: nat)
    requires id in socks && !Connected(socks[id])
    requires SynOnce(socks, a + Syns(toS))
    requires forall k :: k in socks && Connected(socks[k]) ==> socks[k].port != p
    ensures SynOnce(socks[id := Sock(Connecting, p)], a + Syns(toS + [Syn(p, listen)]))
    ensures Acks(toS + [Syn(p, listen)]) == Acks(toS)
  {
    hide SynOnce;
    ToServerSplit(toS, [Syn(p, listen)]);
    assert Syns([Syn(p, listen)]) == [p] && Acks([Syn(p, listen)]) == [];
    SynIsNew(socks, a + Syns(toS), p);
    SynOnceMore(socks, a + Syns(toS), id, p);
    assert a + Syns(toS) + [p] == a + Syns(toS + [Syn(p, listen)]);
  }

  /** A socket that is not yet connected gets port `p` and sends its SYN. */
  lemma SynKeepsInv(st: State, st': State, id: nat, p: nat, listen: nat)
    requires Inv(st)
    requires id in st.c.socks && !Connected(st.c.socks[id])
    requires st'.c.socks == st.c.socks[id := Sock(Connecting, p)] && st'.toS == st.toS + [Syn(p, listen)]
    requires st'.c.mon == st.c.mon && st'.c.proxy == st.c.proxy
    requires st'.s == st.s && st'.toC == st.toC && st'.g == st.g
    requires st'.c.port2sock == st.c.port2sock[p := id]
    requires PortsInv(st'.c)
    requires forall k :: k in st.c.socks && Connected(st.c.socks[k]) ==> st.c.socks[k].port != p
    ensures Inv(st')
  {
    hide ListenersInv, BacklogInv, IdsInv, ProxyInv, SynOnce, OutInv, HeldInv, EstInv;
    var a := st.g.refused + ClientsOf(st.g.acc) + InServer(st.s.mon);
    SendSyn(st.c.socks, id, p, a, st.toS, listen);
    EstStays(st.c, st'.c, st.g.est, id, p);
  }

  lemma EstStays(c: Client, c': Client, est: seq<Rec>, id: nat, p: nat)
    requires PortsInv(c) && EstInv(c.port2sock, c.socks, est)
    requires id in c.socks && !Connected(c.socks[id])
    requires forall k :: k in c.socks && Connected(c.socks[k]) ==> c.socks[k].port != p
    requires c'.socks == c.socks[id := Sock(Connecting, p)]
    requires c'.port2sock == c.port2sock[p := id]
    ensures EstInv(c'.port2sock, c'.socks, est)
  {
  }

  lemma ConnectKeepsPorts(st: State, id: nat, listen: nat)
    requires PortsInv(st.c)
    ensures PortsInv(StepConnect(st, id, listen).c)
  {
    var c := st.c;
    if id in c.socks && c.socks[id].state.New? {
      Ports.AllocateIsFresh(c.ports);
      var (p, ports) := Ports.Allocate(c.ports);
      if p.Some? {
        FreshPortKeepsPorts(c, id, p.value, ports);
      }
    }
  }

  lemma FreshPortKeepsPorts(c: Client, id: nat, p: nat, ports: Ports.State)
    requires PortsInv(c) && id in c.socks && c.socks[id].state.New?
    requires Ports.Typed(ports) && p < |c.ports.used| && !c.ports.used[p] && ports.used == c.ports.used[p := true]
    ensures PortsInv(c.(socks := c.socks[id := Sock(Connecting, p)], port2sock := c.port2sock[p := id], ports := ports))
  {
    hide Ports.Typed;
    assert forall i :: i in c.socks && !c.socks[i].state.New? ==> c.socks[i].port != p;
  }

  lemma BindKeepsPorts(st: State, id: nat, port: nat)
    requires PortsInv(st.c)
    ensures PortsInv(StepBind(st, id, port).c)
  {
  }

  lemma ConnectKeepsInv(st: State, id: nat, listen: nat)
    requires Inv(st)
    ensures Inv(StepConnect(st, id, listen))
  {
    hide ListenersInv, BacklogInv, IdsInv, ProxyInv, SynOnce, OutInv, HeldInv, BackInv, EstInv;
    var st' := StepConnect(st, id, listen);
    ConnectKeepsPorts(st, id, listen);
    if id in st.c.socks && st.c.socks[id].state.New? {
      Ports.AllocateIsFresh(st.c.ports);
      var (p, ports) := Ports.Allocate(st.c.ports);
      if p.Some? {
        SynKeepsInv(st, st', id, p.value, listen);
      }
    }
  }

  lemma BindKeepsInv(st: State, id: nat, port: nat)
    requires Inv(st)
    ensures Inv(StepBind(st, id, port))
  {
    hide ListenersInv, BacklogInv, IdsInv, ProxyInv, SynOnce, OutInv, HeldInv, BackInv, EstInv, PortsInv;
    PortsTyped(st.c);
    var st' := StepBind(st, id, port);
    BindKeepsPorts(st, id, port);
    if st' != st {
      BindKeepsEst(st.c.port2sock, st.c.socks, st.g.est, id, port);
    }
    SynOnceKept(st.c.socks, st'.c.socks, SynPlaces(st));
  }

  lemma NewSockKeepsPorts(c: Client, id: nat)
    requires PortsInv(c) && id !in c.socks
    ensures PortsInv(c.(socks := c.socks[id := Sock(New, 0)]))
  {
  }

  lemma NewSockKeepsEst(port2sock: map<nat, nat>, socks: map<nat, Sock>, est: seq<Rec>, id: nat)
    requires EstInv(port2sock, socks, est) && id !in socks
    ensures EstInv(port2sock, socks[id := Sock(New, 0)], est)
  {
  }

  lemma BindKeepsEst(port2sock: map<nat, nat>, socks: map<nat, Sock>, est: seq<Rec>, id: nat, port: nat)
    requires EstInv(port2sock, socks, est) && id in socks && socks[id].state.New?
    ensures EstInv(port2sock, socks[id := Sock(Bound, port)], est)
  {
  }

  lemma NewSockKeepsInv(cf: Config, st: State, id: nat)
    requires cf.Valid() && Inv(st)
    ensures Inv(Step(cf, st, NewSock(id)))
  {
    hide ListenersInv, BacklogInv, IdsInv, ProxyInv, SynOnce, OutInv, HeldInv, BackInv, PortsInv, EstInv;
    PortsTyped(st.c);
    var st' := Step(cf, st, NewSock(id));
    if id !in st.c.socks {
      NewSockKeepsPorts(st.c, id);
      NewSockKeepsEst(st.c.port2sock, st.c.socks, st.g.est, id);
    }
    SynOnceKept(st.c.socks, st'.c.socks, SynPlaces(st));
  }

  /** The client's monitor takes the next message off the connection. */
  lemma TakeReply(toC: seq<ToClient>, acc: seq<Rec>, h: nat, est: seq<Rec>)
    requires toC != [] && OutInv(toC, acc, h) && HeldInv(acc[..h], est, CIdle)
    ensures toC[0].Refused? ==> OutInv(toC[1..], acc, h)
    ensures toC[0].SynAck? ==>
              && h < |acc| && acc[h] == toC[0].r
              && OutInv(toC[1..], acc, h + 1) && HeldInv(acc[..h + 1], est, CAsk(acc[h]))
  {
    var m, rest := toC[0], toC[1..];
    SynAcksSplit([m], rest);
    assert [m] + rest == toC;
    assert SynAcks([m]) == if m.SynAck? then [m.r] else [];
    if m.SynAck? {
      assert acc[h..][0] == m.r && acc[h..][1..] == acc[h + 1..];
      assert acc[..h + 1] == acc[..h] + [m.r];
      assert est + [] == est;
    }
  }

  /** The client of an accepted connection is on file. */
  lemma OnFile(c: Client, refused: seq<nat>, acc: seq<Rec>, others: seq<nat>, j: nat)
    requires PortsInv(c) && SynOnce(c.socks, refused + ClientsOf(acc) + others) && j < |acc|
    ensures acc[j].client in c.port2sock
  {
    assert (refused + ClientsOf(acc) + others)[|refused| + j] == acc[j].client;
    assert HasOwner(c.socks, acc[j].client);
  }

  lemma AcceptedIsOnFile(st: State, j: nat)
    requires PortsInv(st.c) && SynOnce(st.c.socks, SynPlaces(st)) && j < |st.g.acc|
    ensures st.g.acc[j].client in st.c.port2sock
  {
    hide PortsInv, SynOnce;
    var others := InServer(st.s.mon) + Syns(st.toS);
    assert SynPlaces(st) == st.g.refused + ClientsOf(st.g.acc) + others;
    OnFile(st.c, st.g.refused, st.g.acc, others, j);
  }

  lemma TakeReplyKeepsInv(st: State)
    requires Inv(st) && st.c.mon.CIdle?
    ensures Inv(StepClientMon(st))
  {
    hide ListenersInv, BacklogInv, IdsInv, SynOnce, EstInv, OutInv, HeldInv, BackInv;
    if st.toC != [] {
      TakeReply(st.toC, st.g.acc, st.g.handled, st.g.est);
      assert st.g.handled <= |st.g.acc| by {
        OutBound(st.toC, st.g.acc, st.g.handled);
      }
      if st.toC[0].SynAck? {
        AcceptedIsOnFile(st, st.g.handled);
      }
    }
  }

  lemma OutBound(toC: seq<ToClient>, acc: seq<Rec>, h: nat)
    requires OutInv(toC, acc, h)
    ensures h <= |acc| && (toC != [] && toC[0].SynAck? ==> h < |acc|)
  {
    if toC != [] {
      SynAcksSplit([toC[0]], toC[1..]);
      assert [toC[0]] + toC[1..] == toC;
      assert toC[0].SynAck? ==> SynAcks([toC[0]]) == [toC[0].r];
    }
  }

  /** What the client has established, and is about to, are the first connections accepted. */
  lemma EstIsPrefix(acc: seq<Rec>, h: nat, est: seq<Rec>, mon: ClientMonitor)
    requires h <= |acc| && HeldInv(acc[..h], est, mon)
    ensures est <= acc
    ensures !mon.CIdle? ==> |est| < |acc| && mon.r == acc[|est|]
  {
    assert est + InClient(mon) <= acc;
    if !mon.CIdle? {
      assert (est + InClient(mon))[|est|] == mon.r;
    }
  }

  /** The client sends its CLIENT_SYN_ACK. */
  lemma SendAck(toS: seq<ToServer>, est: seq<Rec>, done: nat, r: Rec)
    requires BackInv(toS, est, done)
    ensures Syns(toS + [AckOf(r)]) == Syns(toS)
    ensures BackInv(toS + [AckOf(r)], est + [r], done)
    ensures (est + [r])[..done] == est[..done]
  {
    hide Syns, Acks, AcksOf;
    AckLast(toS, AckOf(r));
    AcksOfMore(est[done..], r);
    assert (est + [r])[done..] == est[done..] + [r];
    assert (est + [r])[..done] == est[..done];
  }

  lemma AckLast(toS: seq<ToServer>, m: ToServer)
    requires m.ClientSynAck?
    ensures Syns(toS + [m]) == Syns(toS) && Acks(toS + [m]) == Acks(toS) + [m]
  {
    assert (toS + [m])[..|toS|] == toS;
  }

  lemma AcksOfMore(rs: seq<Rec>, r: Rec)
    ensures AcksOf(rs + [r]) == AcksOf(rs) + [AckOf(r)]
  {
    var a, b := AcksOf(rs + [r]), AcksOf(rs) + [AckOf(r)];
    forall i | 0 <= i < |a|
      ensures a[i] == b[i]
    {
      assert a[i] == AckOf((rs + [r])[i]);
    }
  }

  lemma EstablishKeepsEst(port2sock: map<nat, nat>, socks: map<nat, Sock>, est: seq<Rec>, r: Rec)
    requires EstInv(port2sock, socks, est)
    requires r.client in port2sock && port2sock[r.client] in socks && socks[port2sock[r.client]].port == r.client
    ensures var id := port2sock[r.client];
            EstInv(port2sock, socks[id := socks[id].(state := Established)], est + [r])
  {
    forall k | k in ClientsOf(est) + [r.client]
      ensures k in ClientsOf(est + [r])
    {
      assert ClientsOf(est + [r]) == ClientsOf(est) + [r.client];
    }
  }

  lemma EstablishKeepsInv(st: State)
    requires Inv(st) && st.c.mon.CTold?
    ensures Inv(StepClientMon(st))
  {
    hide ListenersInv, BacklogInv, IdsInv, SynOnce, EstInv, BackInv, OutInv, HeldInv, ProxyInv, PortsInv;
    var st' := StepClientMon(st);
    var r, g := st.c.mon.r, st.g;
    OutBound(st.toC, g.acc, g.handled);
    EstIsPrefix(g.acc, g.handled, g.est, st.c.mon);
    AcceptedIsOnFile(st, |g.est|);
    EstablishKeepsPorts(st, r);
    SynOnceKept(st.c.socks, st'.c.socks, SynPlaces(st));
    BackBound(st.toS, g.est, g.done);
    SendAck(st.toS, g.est, g.done, r);
    EstablishKeepsEst(st.c.port2sock, st.c.socks, g.est, r);
    EstablishKeepsHeld(g.acc[..g.handled], g.est, r);
    EstablishKeepsProxy(st.c.proxy, st.s.proxy, st.s.mon, g.acc, g.est, r);
  }

  lemma EstablishKeepsPorts(st: State, r: Rec)
    requires PortsInv(st.c) && st.c.mon == CTold(r) && r.client in st.c.port2sock
    ensures PortsInv(StepClientMon(st).c)
    ensures var id := st.c.port2sock[r.client];
            id in st.c.socks && Connected(st.c.socks[id]) && st.c.socks[id].port == r.client
  {
  }

  lemma EstablishKeepsHeld(handled: seq<Rec>, est: seq<Rec>, r: Rec)
    requires HeldInv(handled, est, CTold(r))
    ensures HeldInv(handled, est + [r], CIdle)
  {
    assert est + [r] + [] == est + [r];
  }

  lemma EstablishKeepsProxy(atClient: seq<ProxyConn>, atServer: seq<ProxyConn>, mon: ServerMonitor,
                            acc: seq<Rec>, est: seq<Rec>, r: Rec)
    requires ProxyInv(atClient, CTold(r), atServer, mon, acc, est)
    ensures ProxyInv(atClient, CIdle, atServer, mon, acc, est + [r])
  {
    hide AtServer, AtClient;
    assert est + [r] + [] == est + [r];
  }

  lemma BackBound(toS: seq<ToServer>, est: seq<Rec>, done: nat)
    requires BackInv(toS, est, done)
    ensures done <= |est| && (toS != [] && toS[0].ClientSynAck? ==> done < |est| && toS[0] == AckOf(est[done]))
  {
    if toS != [] && toS[0].ClientSynAck? {
      ToServerSplit([toS[0]], toS[1..]);
      assert [toS[0]] + toS[1..] == toS;
      assert Acks([toS[0]]) == [toS[0]];
      assert Acks(toS)[0] == toS[0];
    }
  }

  lemma ClientProxyKeepsInv(st: State)
    requires Inv(st)
    ensures Inv(StepClientProxy(st))
  {
    hide ListenersInv, BacklogInv, IdsInv, SynOnce, EstInv, OutInv, BackInv;
    if st.c.mon.CAsk? {
      var r := st.c.mon.r;
      assert st.g.est + [] == st.g.est;
      assert AtClient(st.g.est + [r]) == AtClient(st.g.est) + [ProxyConn(r.client, r.listen, r.part)];
      OutBound(st.toC, st.g.acc, st.g.handled);
      BackBound(st.toS, st.g.est, st.g.done);
    }
  }

  // ---------- steps at the server ----------

  /** The server's monitor takes a SYN off the connection. */
  lemma TakeSyn(toS: seq<ToServer>, est: seq<Rec>, done: nat)
    requires toS != [] && toS[0].Syn? && BackInv(toS, est, done)
    ensures Syns(toS) == [toS[0].client] + Syns(toS[1..])
    ensures BackInv(toS[1..], est, done)
  {
    ToServerSplit([toS[0]], toS[1..]);
    assert [toS[0]] + toS[1..] == toS;
    assert Syns([toS[0]]) == [toS[0].client] && Acks([toS[0]]) == [];
  }

  lemma Reply(toC: seq<ToClient>, acc: seq<Rec>, h: nat, m: ToClient)
    requires OutInv(toC, acc, h)
    ensures OutInv(toC + [m], if m.SynAck? then acc + [m.r] else acc, h)
  {
    SynAcksSplit(toC, [m]);
    assert SynAcks([m]) == if m.SynAck? then [m.r] else [];
    if m.SynAck? {
      assert (acc + [m.r])[h..] == acc[h..] + [m.r];
    }
  }

  lemma TakeSynKeepsInv(cf: Config, st: State)
    requires Inv(st) && st.s.mon.SIdle? && st.toS != [] && st.toS[0].Syn?
    ensures Inv(StepServerMon(cf, st))
  {
    hide PortsInv, EstInv, ListenersInv, SynOnce, BackInv, OutInv, HeldInv, ProxyInv, ClientsOf, Syns;
    var g, m := st.g, st.toS[0];
    OutBound(st.toC, g.acc, g.handled);
    BackBound(st.toS, g.est, g.done);
    TakeSyn(st.toS, g.est, g.done);
    Reply(st.toC, g.acc, g.handled, Refused(m.client));
    var clients, rest := ClientsOf(g.acc), Syns(st.toS[1..]);
    assert g.refused + clients + [] + ([m.client] + rest) == g.refused + clients + [m.client] + rest;
    SynOnceMoved(st.c.socks, g.refused, clients, m.client, rest);
    SameProxy(st.c.proxy, st.c.mon, st.s.proxy, st.s.mon, StepServerMon(cf, st).s.mon, g.acc, g.est);
  }

  lemma SameProxy(atClient: seq<ProxyConn>, cmon: ClientMonitor, atServer: seq<ProxyConn>, mon: ServerMonitor,
                  mon': ServerMonitor, acc: seq<Rec>, est: seq<Rec>)
    requires ProxyInv(atClient, cmon, atServer, mon, acc, est) && !mon.STold? && !mon'.STold?
    ensures ProxyInv(atClient, cmon, atServer, mon', acc, est)
  {
  }

  lemma ServerProxyKeepsInv(cf: Config, st: State)
    requires cf.Valid() && Inv(st)
    ensures Inv(StepServerProxy(cf, st))
  {
    hide PortsInv, SynOnce, EstInv, ListenersInv, OutInv, HeldInv, BackInv;
    if st.s.mon.SAsk? {
      var r := StepServerProxy(cf, st).s.mon.r;
      OutBound(st.toC, st.g.acc, st.g.handled);
      BackBound(st.toS, st.g.est, st.g.done);
      assert st.g.acc + [] == st.g.acc;
      assert AtServer(st.g.acc + [r]) == AtServer(st.g.acc) + [ProxyConn(r.listen, r.client, r.part)];
    }
  }

  lemma {:induction false} NoIds(l: nat, rs: seq<Rec>)
    requires forall i :: 0 <= i < |rs| ==> rs[i].listen != l
    ensures Ids(l, rs) == []
    decreases |rs|
  {
    if rs != [] {
      NoIds(l, rs[..|rs| - 1]);
    }
  }

  lemma ListenKeepsListeners(listeners: map<nat, Listener>, p: nat, n: Listener, acc: seq<Rec>, confirmed: seq<Rec>)
    requires ListenersInv(listeners, acc, confirmed) && ListenerInv(n, Ids(p, acc), Ids(p, confirmed))
    ensures ListenersInv(listeners[p := n], acc, confirmed)
  {
  }

  lemma ListenKeepsInv(cf: Config, st: State, port: nat, backlog: nat)
    requires cf.Valid() && Inv(st)
    ensures Inv(Step(cf, st, Listen(port, backlog)))
  {
    hide PortsInv, SynOnce, EstInv, ListenersInv, ListenerInv, OutInv, BackInv, HeldInv, ProxyInv, IdsInv;
    PortsTyped(st.c);
    OutBound(st.toC, st.g.acc, st.g.handled);
    BackBound(st.toS, st.g.est, st.g.done);
    if port !in st.s.listeners && port < cf.ports && backlog > 0 {
      var cap := MaskRing.Room(backlog);
      NewListenerHasNone(st, port);
      NewListenerStarts(cap);
      ListenKeepsListeners(st.s.listeners, port, NewListener(cap), st.g.acc, st.g.est[..st.g.done]);
      assert st.s.listeners[port := NewListener(cap)].Keys == st.s.listeners.Keys + {port};
      IdsGrow(st.s.listeners.Keys, port, st.s.nextSock, st.s.mon, st.g.acc);
    }
  }

  lemma NewListenerStarts(cap: nat)
    ensures ListenerInv(NewListener(cap), [], [])
  {
    hide AcceptInv, SocketsInv;
    NewListenerAccepts(cap);
    NewListenerHasNoSockets();
  }

  lemma NewListenerAccepts(cap: nat)
    ensures AcceptInv(NewListener(cap), [], [])
  {
    var none: seq<nat> := [];
    assert none[0..] == none && none[..0] == none;
  }

  lemma NewListenerHasNoSockets()
    ensures SocketsInv(map[], [], [])
  {
  }

  lemma IdsGrow(listeners: set<nat>, port: nat, nextSock: nat, mon: ServerMonitor, acc: seq<Rec>)
    requires IdsInv(listeners, nextSock, mon, acc)
    ensures IdsInv(listeners + {port}, nextSock, mon, acc)
  {
  }

  lemma NewListenerHasNone(st: State, port: nat)
    requires Inv(st) && port !in st.s.listeners
    ensures Ids(port, st.g.acc) == [] && Ids(port, st.g.est[..st.g.done]) == []
  {
    hide PortsInv, SynOnce, EstInv, ListenersInv, HeldInv, ProxyInv, OutInv, BackInv, BacklogInv;
    var g := st.g;
    OutBound(st.toC, g.acc, g.handled);
    BackBound(st.toS, g.est, g.done);
    EstIsPrefix(g.acc, g.handled, g.est, st.c.mon);
    NoIds(port, g.acc);
    assert forall i :: 0 <= i < g.done ==> g.est[..g.done][i] in g.acc;
    NoIds(port, g.est[..g.done]);
  }

  lemma PortsTyped(c: Client)
    requires PortsInv(c)
    ensures Ports.Typed(c.ports)
  {
  }

  lemma PushKeepsListener(n: Listener, pushed: seq<nat>, confirmed: seq<nat>, id: nat)
    requires ListenerInv(n, pushed, confirmed) && id !in pushed
    ensures ListenerInv(Push(n, id), pushed + [id], confirmed)
  {
    hide ToldInv;
    var i := |pushed| - |n.backlog|;
    assert (pushed + [id])[i..] == pushed[i..] + [id];
    assert ToldInv(Push(n, id)) by {
      SameTold(n, Push(n, id));
    }
  }

  lemma SameTold(n: Listener, n': Listener)
    requires ToldInv(n) && n'.told == n.told && n'.confirmed == n.confirmed && n'.kept == n.kept
    ensures ToldInv(n')
  {
  }

  lemma ConfirmKeepsListener(ring: nat, n: Listener, pushed: seq<nat>, confirmed: seq<nat>, id: nat)
    requires ListenerInv(n, pushed, confirmed) && id in n.sockets
    ensures ListenerInv(Confirm(ring, n, id), pushed, confirmed + [id])
  {
    hide SocketsInv;
    ConfirmKeepsAccept(ring, n, pushed, confirmed, id);
    ConfirmKeepsSockets(n.sockets, pushed, confirmed, id);
  }

  lemma ConfirmKeepsAccept(ring: nat, n: Listener, pushed: seq<nat>, confirmed: seq<nat>, id: nat)
    requires AcceptInv(n, pushed, confirmed)
    ensures AcceptInv(Confirm(ring, n, id), pushed, confirmed + [id])
  {
    ConfirmKeepsTold(ring, n, id);
    KeptBounds(n);
    hide ToldInv;
    var n', i := Confirm(ring, n, id), Consumed(n);
    var k := Min(i, n.kept);
    assert Consumed(n') == i && Min(i, n'.kept) == k;
    if |n.confirms| < ring {
      LongerTold(n.told, id, i);
      LongerTold(n.told, id, k);
    }
  }

  lemma LongerTold(told: seq<nat>, id: nat, i: nat)
    requires i <= |told|
    ensures (told + [id])[i..] == told[i..] + [id] && (told + [id])[..i] == told[..i]
  {
  }

  lemma KeptBounds(n: Listener)
    requires ToldInv(n)
    ensures n.kept <= |n.told| <= |n.confirmed| && (Dropped(n) == 0 ==> n.kept == |n.told|)
  {
  }

  lemma ConfirmKeepsTold(ring: nat, n: Listener, id: nat)
    requires ToldInv(n)
    ensures ToldInv(Confirm(ring, n, id))
  {
    var n', c' := Confirm(ring, n, id), n.confirmed + [id];
    forall i | n'.kept <= i < |n'.told|
      ensures n'.told[i] in n'.confirmed[i + 1..]
    {
      assert c'[i + 1..] == n.confirmed[i + 1..] + [id];
    }
  }

  lemma ConfirmKeepsSockets(sockets: map<nat, bool>, pushed: seq<nat>, confirmed: seq<nat>, id: nat)
    requires SocketsInv(sockets, pushed, confirmed) && id in sockets
    ensures SocketsInv(sockets[id := true], pushed, confirmed + [id])
  {
  }

  /** The next comparison succeeds if and only if no confirmation was dropped before the one it reads. */
  lemma ComparisonTells(n: Listener, pushed: seq<nat>, confirmed: seq<nat>, i: nat)
    requires AcceptInv(n, pushed, confirmed) && confirmed <= pushed && NoRepeats(pushed) && i < |n.told|
    ensures n.told[i] == pushed[i] <==> i < n.kept
  {
    if i < n.kept {
      assert n.told[..n.kept][i] == n.confirmed[..n.kept][i];
    } else {
      var j :| 0 <= j < |confirmed[i + 1..]| && confirmed[i + 1..][j] == n.told[i];
      assert pushed[i + 1 + j] == n.told[i];
    }
  }

  lemma AcceptKeepsListener(n: Listener, pushed: seq<nat>, confirmed: seq<nat>)
    requires ListenerInv(n, pushed, confirmed) && confirmed <= pushed && NoRepeats(pushed)
    ensures ListenerInv(StepAccept(n), pushed, confirmed)
  {
    hide AcceptInv, SocketsInv;
    if n.app.AIdle? {
      TakeKeepsAccept(n, pushed, confirmed);
    } else if n.confirms != [] {
      CompareKeepsAccept(n, pushed, confirmed);
    }
  }

  lemma TakeKeepsAccept(n: Listener, pushed: seq<nat>, confirmed: seq<nat>)
    requires AcceptInv(n, pushed, confirmed) && n.app.AIdle?
    ensures AcceptInv(StepAccept(n), pushed, confirmed)
  {
    hide ToldInv;
    SameTold(n, StepAccept(n));
  }

  lemma CompareKeepsAccept(n: Listener, pushed: seq<nat>, confirmed: seq<nat>)
    requires AcceptInv(n, pushed, confirmed) && confirmed <= pushed && NoRepeats(pushed)
    requires n.app.AWait? && n.confirms != []
    ensures AcceptInv(StepAccept(n), pushed, confirmed)
  {
    hide ToldInv, NoRepeats;
    var i := Consumed(n);
    ComparisonTells(n, pushed, confirmed, i);
    ReadOne(n.told, i);
    SameTold(n, StepAccept(n));
    KeptBounds(n);
    assert n.confirms[0] == n.told[i] && pushed[i] == n.app.sockid;
    if i < n.kept {
      assert StepAccept(n).accepted == n.told[..i + 1];
    } else {
      assert StepAccept(n).accepted == n.accepted;
    }
  }

  lemma ReadOne(told: seq<nat>, i: nat)
    requires i < |told|
    ensures told[i..][0] == told[i] && told[i..][1..] == told[i + 1..] && told[..i + 1] == told[..i] + [told[i]]
  {
  }

  /** Listeners other than the one a connection belongs to do not see it. */
  lemma ListenersAfter(listeners: map<nat, Listener>, n: Listener, acc: seq<Rec>, acc': seq<Rec>,
                       confirmed: seq<Rec>, confirmed': seq<Rec>, r: Rec)
    requires ListenersInv(listeners, acc, confirmed)
    requires (acc' == acc + [r] && confirmed' == confirmed) || (acc' == acc && confirmed' == confirmed + [r])
    requires ListenerInv(n, Ids(r.listen, acc'), Ids(r.listen, confirmed'))
    ensures ListenersInv(listeners[r.listen := n], acc', confirmed')
  {
    hide ListenerInv;
    forall l | l in listeners && l != r.listen
      ensures Ids(l, acc') == Ids(l, acc) && Ids(l, confirmed') == Ids(l, confirmed)
    {
      IdsMore(l, acc, r);
      IdsMore(l, confirmed, r);
    }
  }

  lemma IdsMore(l: nat, rs: seq<Rec>, r: Rec)
    ensures Ids(l, rs + [r]) == Ids(l, rs) + (if r.listen == l then [r.sockid] else [])
  {
    assert (rs + [r])[..|rs|] == rs;
  }

  /** The listener's part of accepting a connection. */
  lemma PushKeepsListeners(listeners: map<nat, Listener>, acc: seq<Rec>, confirmed: seq<Rec>, r: Rec)
    requires ListenersInv(listeners, acc, confirmed) && r.listen in listeners
    requires forall i :: 0 <= i < |acc| ==> acc[i].sockid != r.sockid
    ensures ListenersInv(listeners[r.listen := Push(listeners[r.listen], r.sockid)], acc + [r], confirmed)
  {
    hide ListenersInv, ListenerInv;
    var n := listeners[r.listen];
    ListenerAt(listeners, acc, confirmed, r.listen);
    IdsComeFrom(r.listen, acc, r.sockid);
    PushKeepsListener(n, Ids(r.listen, acc), Ids(r.listen, confirmed), r.sockid);
    IdsMore(r.listen, acc, r);
    ListenersAfter(listeners, Push(n, r.sockid), acc, acc + [r], confirmed, confirmed, r);
  }

  lemma FinishSynKeepsInv(cf: Config, st: State)
    requires Inv(st) && st.s.mon.STold?
    ensures Inv(StepServerMon(cf, st))
  {
    hide PortsInv, SynOnce, EstInv, ListenersInv, OutInv, BackInv, HeldInv;
    var g, r, s := st.g, st.s.mon.r, st.s;
    OutBound(st.toC, g.acc, g.handled);
    BackBound(st.toS, g.est, g.done);
    Reply(st.toC, g.acc, g.handled, SynAck(r));
    assert (g.acc + [r])[..g.handled] == g.acc[..g.handled];
    assert ClientsOf(g.acc + [r]) == ClientsOf(g.acc) + [r.client];
    assert SynPlaces(StepServerMon(cf, st)) == SynPlaces(st);
    assert g.acc + [r] + [] == g.acc + [r];
    PushKeepsListeners(s.listeners, g.acc, g.est[..g.done], r);
    assert StepServerMon(cf, st).s.listeners.Keys == s.listeners.Keys;
  }

  lemma ListenerAt(listeners: map<nat, Listener>, acc: seq<Rec>, confirmed: seq<Rec>, l: nat)
    requires ListenersInv(listeners, acc, confirmed) && l in listeners
    ensures ListenerInv(listeners[l], Ids(l, acc), Ids(l, confirmed))
  {
  }

  /** The server's monitor takes a CLIENT_SYN_ACK off the connection. */
  lemma TakeAck(toS: seq<ToServer>, est: seq<Rec>, done: nat)
    requires toS != [] && toS[0].ClientSynAck? && BackInv(toS, est, done)
    ensures done < |est| && toS[0] == AckOf(est[done])
    ensures Syns(toS) == Syns(toS[1..]) && BackInv(toS[1..], est, done + 1)
    ensures est[..done + 1] == est[..done] + [est[done]]
  {
    hide Syns, Acks, AcksOf;
    BackBound(toS, est, done);
    AckFirst(toS);
    AcksOfTail(est[done..]);
    assert est[done..][1..] == est[done + 1..];
    assert est[..done + 1] == est[..done] + [est[done]];
  }

  lemma AckFirst(toS: seq<ToServer>)
    requires toS != [] && toS[0].ClientSynAck?
    ensures Syns(toS) == Syns(toS[1..]) && |Acks(toS)| > 0 && Acks(toS)[0] == toS[0] && Acks(toS)[1..] == Acks(toS[1..])
  {
    ToServerSplit([toS[0]], toS[1..]);
    assert [toS[0]] + toS[1..] == toS;
    assert Syns([toS[0]]) == [] && Acks([toS[0]]) == [toS[0]];
  }

  lemma AcksOfTail(rs: seq<Rec>)
    requires rs != []
    ensures AcksOf(rs[1..]) == AcksOf(rs)[1..]
  {
    var a, b := AcksOf(rs[1..]), AcksOf(rs)[1..];
    forall i | 0 <= i < |a|
      ensures a[i] == b[i]
    {
      assert a[i] == AckOf(rs[1..][i]);
    }
  }

  /** The listener's part of a confirmation: the socket it names is there. */
  lemma ConfirmKeepsListeners(ring: nat, listeners: map<nat, Listener>, acc: seq<Rec>, confirmed: seq<Rec>, r: Rec)
    requires ListenersInv(listeners, acc, confirmed) && r.listen in listeners && r in acc
    ensures var n := listeners[r.listen];
            && r.sockid in n.sockets
            && ListenersInv(listeners[r.listen := Confirm(ring, n, r.sockid)], acc, confirmed + [r])
  {
    hide ListenersInv, AcceptInv;
    var n := listeners[r.listen];
    ListenerAt(listeners, acc, confirmed, r.listen);
    IdsComeFrom(r.listen, acc, r.sockid);
    ConfirmKeepsListener(ring, n, Ids(r.listen, acc), Ids(r.listen, confirmed), r.sockid);
    IdsMore(r.listen, confirmed, r);
    ListenersAfter(listeners, Confirm(ring, n, r.sockid), acc, acc, confirmed, confirmed + [r], r);
  }

  lemma ConfirmKeepsInv(cf: Config, st: State)
    requires Inv(st) && st.s.mon.SIdle? && st.toS != [] && st.toS[0].ClientSynAck?
    ensures Inv(StepServerMon(cf, st))
  {
    hide PortsInv, SynOnce, EstInv, ListenersInv, OutInv, BackInv, HeldInv, ProxyInv;
    var g, s := st.g, st.s;
    OutBound(st.toC, g.acc, g.handled);
    TakeAck(st.toS, g.est, g.done);
    var r := g.est[g.done];
    EstIsPrefix(g.acc, g.handled, g.est, st.c.mon);
    assert r in g.est;
    assert r.listen in s.listeners.Keys;
    ConfirmKeepsListeners(cf.ring, s.listeners, g.acc, g.est[..g.done], r);
    assert StepServerMon(cf, st).s.listeners.Keys == s.listeners.Keys;
  }

  /** The sockets confirmed on a listener are the first ones pushed onto its backlog. */
  lemma ConfirmedIsPrefix(st: State, l: nat)
    requires OutInv(st.toC, st.g.acc, st.g.handled) && BackInv(st.toS, st.g.est, st.g.done)
    requires st.g.handled <= |st.g.acc| && HeldInv(st.g.acc[..st.g.handled], st.g.est, st.c.mon)
    ensures st.g.done <= |st.g.est| <= |st.g.acc|
    ensures Ids(l, st.g.est[..st.g.done]) <= Ids(l, st.g.est) <= Ids(l, st.g.acc)
  {
    hide OutInv, HeldInv, Ids;
    var g := st.g;
    EstIsPrefix(g.acc, g.handled, g.est, st.c.mon);
    assert g.acc == g.est + g.acc[|g.est|..] && g.est == g.est[..g.done] + g.est[g.done..];
    IdsSplit(l, g.est, g.acc[|g.est|..]);
    IdsSplit(l, g.est[..g.done], g.est[g.done..]);
  }

  lemma {:induction false} IdsDistinct(l: nat, rs: seq<Rec>)
    requires forall i, j :: 0 <= i < j < |rs| ==> rs[i].sockid != rs[j].sockid
    ensures NoRepeats(Ids(l, rs))
    decreases |rs|
  {
    if rs != [] {
      var n := |rs| - 1;
      IdsDistinct(l, rs[..n]);
      IdsComeFrom(l, rs[..n], rs[n].sockid);
      var ids := Ids(l, rs[..n]);
      assert forall i :: 0 <= i < |ids| ==> ids[i] in ids;
    }
  }

  lemma DistinctIds(s: Server, acc: seq<Rec>, l: nat)
    requires IdsInv(s.listeners.Keys, s.nextSock, s.mon, acc)
    ensures NoRepeats(Ids(l, acc))
  {
    hide Ids;
    IdsDistinct(l, acc);
  }

  lemma AcceptKeepsInv(cf: Config, st: State, l: nat)
    requires cf.Valid() && Inv(st)
    ensures Inv(Step(cf, st, Accept(l)))
  {
    hide PortsInv, SynOnce, EstInv, ListenersInv, ListenerInv, OutInv, BackInv, HeldInv, ProxyInv, IdsInv, BacklogInv,
         StepAccept, Ids;
    var g, s := st.g, st.s;
    PortsTyped(st.c);
    OutBound(st.toC, g.acc, g.handled);
    BackBound(st.toS, g.est, g.done);
    if l in s.listeners {
      ListenerAt(s.listeners, g.acc, g.est[..g.done], l);
      ConfirmedIsPrefix(st, l);
      DistinctIds(s, g.acc, l);
      AcceptKeepsListener(s.listeners[l], Ids(l, g.acc), Ids(l, g.est[..g.done]));
      ListenKeepsListeners(s.listeners, l, StepAccept(s.listeners[l]), g.acc, g.est[..g.done]);
      AcceptKeepsBacklog(s.listeners, l, s.mon);
      assert s.listeners[l := StepAccept(s.listeners[l])].Keys == s.listeners.Keys;
    }
  }

  lemma AcceptKeepsBacklog(listeners: map<nat, Listener>, l: nat, mon: ServerMonitor)
    requires BacklogInv(listeners, mon) && l in listeners
    ensures BacklogInv(listeners[l := StepAccept(listeners[l])], mon)
  {
  }

  // ---------- every run ----------

  lemma StepKeepsInv(cf: Config, st: State, l: Label)
    requires cf.Valid() && Inv(st)
    ensures Inv(Step(cf, st, l))
  {
    hide SynOnce, EstInv, ListenersInv, OutInv, BackInv, HeldInv, ProxyInv, IdsInv, BacklogInv;
    match l
    case NewSock(id) => NewSockKeepsInv(cf, st, id);
    case Bind(id, port) => BindKeepsInv(st, id, port);
    case Connect(id, listen) => ConnectKeepsInv(st, id, listen);
    case ClientMon =>
      if st.c.mon.CIdle? { TakeReplyKeepsInv(st); } else if st.c.mon.CTold? { EstablishKeepsInv(st); }
    case ClientProxy => ClientProxyKeepsInv(st);
    case Listen(port, backlog) => ListenKeepsInv(cf, st, port, backlog);
    case ServerMon =>
      if st.s.mon.STold? {
        FinishSynKeepsInv(cf, st);
      } else if st.s.mon.SIdle? && st.toS != [] {
        if st.toS[0].Syn? { TakeSynKeepsInv(cf, st); } else { ConfirmKeepsInv(cf, st); }
      }
    case ServerProxy => ServerProxyKeepsInv(cf, st);
    case Accept(l) => AcceptKeepsInv(cf, st, l);
  }

  function Init(cf: Config): State {
    State(Client(map[], map[], Ports.Fresh(cf.ports), CIdle, []), Server(map[], 1, SIdle, [], 0), [], [],
          Log([], 0, [], 0, []))
  }

  function Run(cf: Config, schedule: seq<Label>): (st: State)
    requires cf.Valid()
    ensures Ports.Typed(st.c.ports)
  {
    if schedule == [] then Init(cf) else Step(cf, Run(cf, schedule[..|schedule| - 1]), schedule[|schedule| - 1])
  }

  lemma {:induction false} RunKeepsInv(cf: Config, schedule: seq<Label>)
    requires cf.Valid()
    ensures Inv(Run(cf, schedule))
    decreases |schedule|
  {
    hide SynOnce, EstInv, ListenersInv, OutInv, BackInv, HeldInv, ProxyInv, IdsInv, BacklogInv;
    if schedule == [] {
      InitHasInv(cf);
    } else {
      RunKeepsInv(cf, schedule[..|schedule| - 1]);
      StepKeepsInv(cf, Run(cf, schedule[..|schedule| - 1]), schedule[|schedule| - 1]);
    }
  }

  lemma InitHasInv(cf: Config)
    requires cf.Valid()
    ensures Inv(Init(cf))
  {
    var empty: seq<Rec> := [];
    assert empty[0..] == [] && empty[..0] == [];
  }

  // ---------- what the handshake promises ----------

  /** Both ends of connection `r` are set up, on the same partition. */
  ghost predicate SetUp(st: State, r: Rec) {
    && r.client in st.c.port2sock && st.c.port2sock[r.client] in st.c.socks
    && st.c.socks[st.c.port2sock[r.client]] == Sock(Established, r.client)
    && ProxyConn(r.client, r.listen, r.part) in st.c.proxy
    && ProxyConn(r.listen, r.client, r.part) in st.s.proxy
  }

  lemma EstablishedIsSetUp(st: State, r: Rec)
    requires Inv(st) && r in st.g.est
    ensures SetUp(st, r)
  {
    hide SynOnce, ListenersInv, IdsInv, BacklogInv;
    var i :| 0 <= i < |st.g.est| && st.g.est[i] == r;
    EstIsPrefix(st.g.acc, st.g.handled, st.g.est, st.c.mon);
    var j :| 0 <= j < |st.g.acc| && st.g.acc[j] == r;
    assert st.c.proxy[i] == ProxyConn(r.client, r.listen, r.part);
    assert st.s.proxy[j] == ProxyConn(r.listen, r.client, r.part);
  }

  /**
   * When the server's socket is ESTABLISHED, so is the client's, and both proxies hold the
   * connection under mirrored ports on the same partition.
   */
  lemma ServerEstablishedMeansClient(cf: Config, schedule: seq<Label>, l: nat, id: nat)
    requires cf.Valid()
    requires var s := Run(cf, schedule).s;
             l in s.listeners && id in s.listeners[l].sockets && s.listeners[l].sockets[id]
    ensures exists r: Rec :: r.listen == l && r.sockid == id && SetUp(Run(cf, schedule), r)
  {
    hide SynOnce, IdsInv, BacklogInv, HeldInv, OutInv, AcceptInv, ProxyInv, EstInv, PortsInv, SetUp;
    var st := Run(cf, schedule);
    RunKeepsInv(cf, schedule);
    ListenerAt(st.s.listeners, st.g.acc, st.g.est[..st.g.done], l);
    IdsComeFrom(l, st.g.est[..st.g.done], id);
    var i :| 0 <= i < st.g.done && IsOf(st.g.est[..st.g.done][i], l, id);
    EstablishedIsSetUp(st, st.g.est[i]);
  }

  /**
   * At every moment the client's proxy holds the first of the connections that the server's proxy
   * holds, in the same order and mirrored on the same partition, and neither proxy holds two
   * connections for one client port.
   */
  lemma ProxiesMirror(cf: Config, schedule: seq<Label>)
    requires cf.Valid()
    ensures var st := Run(cf, schedule);
            && |st.c.proxy| <= |st.s.proxy|
            && (forall i :: 0 <= i < |st.c.proxy| ==>
                  st.s.proxy[i] == ProxyConn(st.c.proxy[i].dst, st.c.proxy[i].src, st.c.proxy[i].part))
            && (forall i, j :: 0 <= i < j < |st.s.proxy| ==> st.s.proxy[i].dst != st.s.proxy[j].dst)
            && (forall i, j :: 0 <= i < j < |st.c.proxy| ==> st.c.proxy[i].src != st.c.proxy[j].src)
  {
    hide IdsInv, BacklogInv, ListenersInv, PortsInv, EstInv, OutInv, BackInv;
    var st := Run(cf, schedule);
    var g := st.g;
    RunKeepsInv(cf, schedule);
    OutBound(st.toC, g.acc, g.handled);
    ServerProxyHolds(g.acc, st);
    forall i | 0 <= i < |st.c.proxy|
      ensures i < |st.s.proxy|
      ensures st.s.proxy[i] == ProxyConn(st.c.proxy[i].dst, st.c.proxy[i].src, st.c.proxy[i].part)
    {
      ClientProxyHolds(st, i);
    }
  }

  lemma ServerProxyHolds(acc: seq<Rec>, st: State)
    requires SynOnce(st.c.socks, SynPlaces(st)) && st.g.acc == acc
    requires st.s.proxy == AtServer(acc + (if st.s.mon.STold? then [st.s.mon.r] else []))
    ensures forall i, j :: 0 <= i < j < |st.s.proxy| ==> st.s.proxy[i].dst != st.s.proxy[j].dst
  {
    var n, order := |st.g.refused|, SynPlaces(st);
    assert forall i :: 0 <= i < |st.s.proxy| ==> st.s.proxy[i].dst == order[n + i];
  }

  /** The client's proxy holds the first of the connections at the server's, mirrored. */
  lemma ClientProxyHolds(st: State, i: nat)
    requires ProxyInv(st.c.proxy, st.c.mon, st.s.proxy, st.s.mon, st.g.acc, st.g.est)
    requires st.g.handled <= |st.g.acc| && HeldInv(st.g.acc[..st.g.handled], st.g.est, st.c.mon) && i < |st.c.proxy|
    ensures i < |st.s.proxy|
    ensures st.s.proxy[i] == ProxyConn(st.c.proxy[i].dst, st.c.proxy[i].src, st.c.proxy[i].part)
  {
    EstIsPrefix(st.g.acc, st.g.handled, st.g.est, st.c.mon);
    assert AtServer(st.g.acc)[i] == st.s.proxy[i];
  }

  /** The partitions handed out so far follow the round-robin order. */
  predicate InTurn(cf: Config, s: Server, acc: seq<Rec>)
    requires cf.Valid()
  {
    && (forall i :: 0 <= i < |acc| ==> acc[i].part == SendList.PartitionAfter(i, cf.partitions))
    && (s.mon.STold? ==> s.mon.r.part == SendList.PartitionAfter(|acc|, cf.partitions))
    && s.roundRobin == SendList.PartitionAfter(|acc| + if s.mon.STold? then 1 else 0, cf.partitions)
  }

  lemma StepKeepsInTurn(cf: Config, st: State, l: Label)
    requires cf.Valid() && Ports.Typed(st.c.ports) && InTurn(cf, st.s, st.g.acc)
    ensures InTurn(cf, Step(cf, st, l).s, Step(cf, st, l).g.acc)
  {
    hide SendList.NextPartition;
  }

  lemma {:induction false} RunKeepsInTurn(cf: Config, schedule: seq<Label>)
    requires cf.Valid()
    ensures InTurn(cf, Run(cf, schedule).s, Run(cf, schedule).g.acc)
    decreases |schedule|
  {
    hide InTurn;
    if schedule == [] {
      InitInTurn(cf);
    } else {
      RunKeepsInTurn(cf, schedule[..|schedule| - 1]);
      StepKeepsInTurn(cf, Run(cf, schedule[..|schedule| - 1]), schedule[|schedule| - 1]);
    }
  }

  /** The connections at the server's proxy are on the partitions in round-robin order. */
  lemma PartitionsInTurn(cf: Config, schedule: seq<Label>, i: nat)
    requires cf.Valid() && i < |Run(cf, schedule).s.proxy|
    ensures Run(cf, schedule).s.proxy[i].part == SendList.PartitionAfter(i, cf.partitions) < cf.partitions
  {
    hide SynOnce, EstInv, ListenersInv, OutInv, BackInv, HeldInv, IdsInv, BacklogInv, PortsInv, ProxyInv, InTurn, Run;
    var st := Run(cf, schedule);
    RunKeepsInv(cf, schedule);
    RunKeepsInTurn(cf, schedule);
    InTurnAtProxy(cf, st.c, st.s, st.g.acc, st.g.est, i);
    SendList.PartitionIsValid(i, cf.partitions);
  }

  lemma InTurnAtProxy(cf: Config, c: Client, s: Server, acc: seq<Rec>, est: seq<Rec>, i: nat)
    requires cf.Valid() && i < |s.proxy| && InTurn(cf, s, acc)
    requires ProxyInv(c.proxy, c.mon, s.proxy, s.mon, acc, est)
    ensures s.proxy[i].part == SendList.PartitionAfter(i, cf.partitions)
  {
    hide SendList.PartitionAfter;
  }

  lemma InitInTurn(cf: Config)
    requires cf.Valid()
    ensures InTurn(cf, Init(cf).s, Init(cf).g.acc)
  {
  }

  // ---------- no connection is lost ----------

  /**
   * Every connection that the server accepted is on file at the client, and is established there,
   * in the client's hands, or announced by a SYN_ACK on its way, in the order of acceptance; every
   * one established there is confirmed at the server or announced by a CLIENT_SYN_ACK on its way.
   */
  lemma ConnectionsAreConserved(cf: Config, schedule: seq<Label>)
    requires cf.Valid()
    ensures var st := Run(cf, schedule);
            && (forall j :: 0 <= j < |st.g.acc| ==> st.g.acc[j].client in st.c.port2sock)
            && st.g.acc == st.g.est + InClient(st.c.mon) + SynAcks(st.toC)
            && st.g.done <= |st.g.est|
            && AcksOf(st.g.est) == AcksOf(st.g.est[..st.g.done]) + Acks(st.toS)
  {
    hide EstInv, ListenersInv, ProxyInv, IdsInv, BacklogInv, PortsInv, SynOnce, SynAcks, Acks, AcksOf, Run;
    var st := Run(cf, schedule);
    var g := st.g;
    RunKeepsInv(cf, schedule);
    forall j | 0 <= j < |g.acc|
      ensures g.acc[j].client in st.c.port2sock
    {
      AcceptedIsOnFile(st, j);
    }
    assert g.acc == g.acc[..g.handled] + g.acc[g.handled..];
    AcksOfCut(g.est, g.done);
  }

  lemma AcksOfCut(rs: seq<Rec>, n: nat)
    requires n <= |rs|
    ensures AcksOf(rs) == AcksOf(rs[..n]) + AcksOf(rs[n..])
  {
    var a, b := AcksOf(rs), AcksOf(rs[..n]) + AcksOf(rs[n..]);
    forall i | 0 <= i < |a|
      ensures a[i] == b[i]
    {
      assert b[i] == AckOf(if i < n then rs[..n][i] else rs[n..][i - n]);
    }
  }

  /** What holds of a listener at every moment of every run. */
  lemma ConfirmedInOrder(st: State, l: nat)
    requires Inv(st) && l in st.s.listeners
    ensures AcceptInv(st.s.listeners[l], Ids(l, st.g.acc), Ids(l, st.g.est[..st.g.done]))
    ensures Ids(l, st.g.est[..st.g.done]) <= Ids(l, st.g.acc)
  {
    hide PortsInv, SynOnce, EstInv, ListenersInv, OutInv, BackInv, HeldInv, ProxyInv, IdsInv, BacklogInv, AcceptInv,
         Ids;
    var g := st.g;
    OutBound(st.toC, g.acc, g.handled);
    BackBound(st.toS, g.est, g.done);
    ListenerAt(st.s.listeners, g.acc, g.est[..g.done], l);
    ConfirmedIsPrefix(st, l);
  }

  /** The socket that `nts_accept` has taken off the backlog and not yet returned. */
  function Waiting(app: App): seq<nat> {
    if app.AWait? then [app.sockid] else []
  }

  /**
   * What `nts_accept` has done on a listener, in every run: of the sockets it took off the backlog
   * it returned exactly those confirmed before the first dropped confirmation, in backlog order,
   * and its comparison has failed if and only if it has read a confirmation from behind a dropped
   * one.  Nothing told was made up: each was confirmed, and confirmations come in backlog order.
   */
  lemma WhenAcceptFails(cf: Config, schedule: seq<Label>, l: nat)
    requires cf.Valid() && l in Run(cf, schedule).s.listeners
    ensures var n := Run(cf, schedule).s.listeners[l];
            && n.confirmed <= n.pushed && 0 <= Dropped(n) && 0 <= Consumed(n) && n.kept <= |n.told|
            && (Dropped(n) == 0 ==> n.kept == |n.told| && n.told == n.confirmed)
            && Taken(n) <= |n.pushed| && n.pushed == n.pushed[..Consumed(n)] + Waiting(n.app) + n.backlog
            && n.accepted == n.pushed[..Min(Consumed(n), n.kept)]
            && (n.rejected <==> Consumed(n) > n.kept)
  {
    hide Inv, Run, Ids;
    RunKeepsInv(cf, schedule);
    ConfirmedInOrder(Run(cf, schedule), l);
    var n := Run(cf, schedule).s.listeners[l];
    assert n.told[..n.kept] == n.pushed[..n.kept];
    if Dropped(n) == 0 {
      assert n.told[..n.kept] == n.told && n.confirmed[..n.kept] == n.confirmed;
    }
  }

  // ---------- a message ring that is large enough ----------

  /** On a listener whose backlog holds less than the message ring, nothing was dropped. */
  predicate NoneDropped(cf: Config, st: State) {
    forall l :: l in st.s.listeners && st.s.listeners[l].cap < cf.ring ==> Dropped(st.s.listeners[l]) == 0
  }

  /** There is room for one more: what is unread was confirmed, so it is in the backlog or being waited for. */
  lemma RoomToTell(cf: Config, st: State, l: nat)
    requires Inv(st) && NoneDropped(cf, st) && l in st.s.listeners && st.s.listeners[l].cap < cf.ring
    requires st.g.done <= |st.g.est| && |Ids(l, st.g.est[..st.g.done])| < |Ids(l, st.g.acc)|
    ensures |st.s.listeners[l].confirms| < cf.ring
  {
    hide PortsInv, SynOnce, EstInv, OutInv, BackInv, HeldInv, ProxyInv, IdsInv, Ids, ToldInv, SocketsInv;
    BackBound(st.toS, st.g.est, st.g.done);
    ListenerAt(st.s.listeners, st.g.acc, st.g.est[..st.g.done], l);
  }

  lemma ConfirmDropsNone(cf: Config, st: State)
    requires cf.Valid() && Inv(st) && NoneDropped(cf, st) && st.s.mon.SIdle? && st.toS != [] && st.toS[0].ClientSynAck?
    ensures NoneDropped(cf, StepServerMon(cf, st))
  {
    hide PortsInv, SynOnce, EstInv, ListenersInv, OutInv, BackInv, HeldInv, ProxyInv, IdsInv, BacklogInv, Ids;
    var g, l := st.g, st.toS[0].listen;
    OutBound(st.toC, g.acc, g.handled);
    TakeAck(st.toS, g.est, g.done);
    if l in st.s.listeners && st.s.listeners[l].cap < cf.ring {
      ConfirmedIsPrefix(st, l);
      IdsMore(l, g.est[..g.done], g.est[g.done]);
      IdsSplit(l, g.est[..g.done + 1], g.est[g.done + 1..]);
      assert g.est == g.est[..g.done + 1] + g.est[g.done + 1..];
      RoomToTell(cf, st, l);
    }
  }

  lemma StepDropsNone(cf: Config, st: State, l: Label)
    requires cf.Valid() && Inv(st) && Ports.Typed(st.c.ports) && NoneDropped(cf, st)
    ensures NoneDropped(cf, Step(cf, st, l))
  {
    hide Inv;
    if l.ServerMon? && st.s.mon.SIdle? && st.toS != [] && st.toS[0].ClientSynAck? {
      ConfirmDropsNone(cf, st);
    }
  }

  lemma {:induction false} RunDropsNone(cf: Config, schedule: seq<Label>)
    requires cf.Valid()
    ensures NoneDropped(cf, Run(cf, schedule))
    decreases |schedule|
  {
    if schedule != [] {
      hide Inv, Step;
      var before := schedule[..|schedule| - 1];
      RunDropsNone(cf, before);
      RunKeepsInv(cf, before);
      StepDropsNone(cf, Run(cf, before), schedule[|schedule| - 1]);
    }
  }

  /**
   * `nts_accept` compares the socket it took off the backlog with the next confirmation.  If the
   * backlog holds less than the message ring, the comparison never fails: in every run no
   * confirmation is dropped, and the sockets pushed are those returned, the one being waited for,
   * and the backlog, in this order.
   */
  lemma AcceptNeverFails(cf: Config, schedule: seq<Label>, l: nat)
    requires cf.Valid() && l in Run(cf, schedule).s.listeners
    ensures var n := Run(cf, schedule).s.listeners[l];
            n.cap < cf.ring ==>
              && Dropped(n) == 0 && !n.rejected
              && n.pushed == n.accepted + Waiting(n.app) + n.backlog
  {
    hide Run;
    WhenAcceptFails(cf, schedule, l);
    RunDropsNone(cf, schedule);
  }

  /** Nothing is on its way between the nodes, and both monitors are idle. */
  predicate Quiet(st: State) {
    st.toS == [] && st.toC == [] && st.c.mon.CIdle? && st.s.mon.SIdle?
  }

  lemma QuietMeansDone(cf: Config, schedule: seq<Label>)
    requires cf.Valid() && Quiet(Run(cf, schedule))
    ensures var g := Run(cf, schedule).g; g.est == g.acc && g.done == |g.acc|
  {
    hide Run;
    var st := Run(cf, schedule);
    ConnectionsAreConserved(cf, schedule);
    assert st.g.est + [] + [] == st.g.est;
    assert |AcksOf(st.g.est)| == |AcksOf(st.g.est[..st.g.done])|;
  }

  /** When all is quiet, every connection accepted is established and confirmed. */
  lemma QuietMeansConfirmed(cf: Config, schedule: seq<Label>)
    requires cf.Valid() && Quiet(Run(cf, schedule))
    ensures var st := Run(cf, schedule);
            && st.g.est == st.g.acc && st.g.done == |st.g.acc|
            && (forall j :: 0 <= j < |st.g.acc| ==> SetUp(st, st.g.acc[j]))
            && (forall l :: l in st.s.listeners ==> st.s.listeners[l].confirmed == st.s.listeners[l].pushed)
  {
    hide Inv, Run, SetUp, Ids;
    var st := Run(cf, schedule);
    RunKeepsInv(cf, schedule);
    QuietMeansDone(cf, schedule);
    assert st.g.est[..st.g.done] == st.g.acc;
    forall j | 0 <= j < |st.g.acc|
      ensures SetUp(st, st.g.acc[j])
    {
      EstablishedIsSetUp(st, st.g.acc[j]);
    }
    forall l | l in st.s.listeners
      ensures st.s.listeners[l].confirmed == st.s.listeners[l].pushed
    {
      ConfirmedInOrder(st, l);
    }
  }

  /**
   * When all is quiet and every confirmation told has been read, as many sockets are left without
   * one as confirmations were dropped: the one being waited for and those in the backlog.
   */
  lemma LeftWithoutConfirmation(cf: Config, schedule: seq<Label>, l: nat)
    requires cf.Valid() && l in Run(cf, schedule).s.listeners && Quiet(Run(cf, schedule))
    ensures var n := Run(cf, schedule).s.listeners[l];
            |Waiting(n.app) + n.backlog| == Dropped(n) + |n.confirms|
  {
    hide Run;
    WhenAcceptFails(cf, schedule, l);
    QuietMeansConfirmed(cf, schedule);
  }

  /**
   * An `nts_accept` that has a socket and no confirmation to compare it with waits for a message on
   * its way, unless a confirmation was dropped; so it never waits in vain if the backlog holds less
   * than the message ring.
   */
  lemma AcceptIsNeverStuck(cf: Config, schedule: seq<Label>, l: nat)
    requires cf.Valid() && l in Run(cf, schedule).s.listeners
    requires Stuck(Run(cf, schedule), l)
    ensures var n := Run(cf, schedule).s.listeners[l]; Dropped(n) > 0 && n.cap >= cf.ring
  {
    hide Run;
    LeftWithoutConfirmation(cf, schedule, l);
    WhenAcceptFails(cf, schedule, l);
    RunDropsNone(cf, schedule);
  }

  /** An `nts_accept` waits for a confirmation and nothing is on its way. */
  predicate Stuck(st: State, l: nat)
    requires l in st.s.listeners
  {
    Quiet(st) && st.s.listeners[l].app.AWait? && st.s.listeners[l].confirms == []
  }

  // ---------- ports ----------

  /** The ports that exist are the configured ones, and listeners are on such ports. */
  predicate PortRange(cf: Config, st: State) {
    |st.c.ports.used| == cf.ports && forall l :: l in st.s.listeners ==> l < cf.ports
  }

  lemma {:induction false} RunKeepsRange(cf: Config, schedule: seq<Label>)
    requires cf.Valid()
    ensures PortRange(cf, Run(cf, schedule))
    decreases |schedule|
  {
    if schedule != [] {
      hide Run;
      RunKeepsRange(cf, schedule[..|schedule| - 1]);
      assert Run(cf, schedule) == Step(cf, Run(cf, schedule[..|schedule| - 1]), schedule[|schedule| - 1]) by {
        LastStep(cf, schedule);
      }
      StepKeepsRange(cf, Run(cf, schedule[..|schedule| - 1]), schedule[|schedule| - 1]);
    }
  }

  lemma LastStep(cf: Config, schedule: seq<Label>)
    requires cf.Valid() && schedule != []
    ensures Run(cf, schedule) == Step(cf, Run(cf, schedule[..|schedule| - 1]), schedule[|schedule| - 1])
  {
  }

  lemma StepKeepsRange(cf: Config, st: State, l: Label)
    requires cf.Valid() && Ports.Typed(st.c.ports) && PortRange(cf, st)
    ensures PortRange(cf, Step(cf, st, l))
  {
  }

  /** The connections at the server's proxy, which include those at the client's, have ports that exist. */
  lemma ProxyPortsExist(cf: Config, schedule: seq<Label>, i: nat)
    requires cf.Valid() && i < |Run(cf, schedule).s.proxy|
    ensures var st := Run(cf, schedule);
            st.s.proxy[i].src in st.s.listeners && st.s.proxy[i].src < cf.ports && st.s.proxy[i].dst < cf.ports
  {
    hide EstInv, ListenersInv, OutInv, BackInv, BacklogInv, SynOnce, PortsInv, HeldInv, IdsInv, Run;
    var st := Run(cf, schedule);
    RunKeepsInv(cf, schedule);
    RunKeepsRange(cf, schedule);
    AcceptedListens(st.s, st.g.acc);
    assert SynPlaces(st)[|st.g.refused| + i] == st.s.proxy[i].dst;
    SynPortExists(st.c, SynPlaces(st), |st.g.refused| + i);
  }

  lemma SynPortExists(c: Client, order: seq<nat>, i: nat)
    requires PortsInv(c) && SynOnce(c.socks, order) && i < |order|
    ensures order[i] < |c.ports.used|
  {
    assert HasOwner(c.socks, order[i]);
  }

  lemma AcceptedListens(s: Server, acc: seq<Rec>)
    requires IdsInv(s.listeners.Keys, s.nextSock, s.mon, acc)
    ensures forall j :: 0 <= j < |acc| ==> acc[j].listen in s.listeners
    ensures s.mon.STold? ==> s.mon.r.listen in s.listeners
  {
  }

  // ---------- a refused connect ----------

  /**
   * The client's monitor drops a refusal.  So once all is quiet, an `nts_connect` that has sent its
   * SYN is still waiting if and only if the SYN was refused.
   */
  lemma WhenConnectHangs(cf: Config, schedule: seq<Label>, k: nat)
    requires cf.Valid() && k in Run(cf, schedule).c.socks && Connected(Run(cf, schedule).c.socks[k])
    ensures var st := Run(cf, schedule);
            && (st.c.socks[k].port in st.g.refused ==> st.c.socks[k].state.Connecting?)
            && (Quiet(st) && st.c.socks[k].state.Connecting? ==> st.c.socks[k].port in st.g.refused)
  {
    hide Inv, Run;
    var st := Run(cf, schedule);
    RunKeepsInv(cf, schedule);
    if st.c.socks[k].state.Established? {
      EstablishedWasAccepted(st, k);
    }
    if Quiet(st) && st.c.socks[k].port !in st.g.refused {
      QuietMeansDone(cf, schedule);
      QuietIsAccepted(st, k);
    }
  }

  lemma EstablishedWasAccepted(st: State, k: nat)
    requires Inv(st) && k in st.c.socks && st.c.socks[k].state.Established?
    ensures st.c.socks[k].port !in st.g.refused
  {
    hide ListenersInv, OutInv, BackInv, ProxyInv, IdsInv, BacklogInv, PortsInv, HeldInv, SynOnce;
    var p := st.c.socks[k].port;
    OutBound(st.toC, st.g.acc, st.g.handled);
    EstIsPrefix(st.g.acc, st.g.handled, st.g.est, st.c.mon);
    var i :| 0 <= i < |st.g.est| && ClientsOf(st.g.est)[i] == p;
    assert ClientsOf(st.g.acc)[i] == p;
    var others := InServer(st.s.mon) + Syns(st.toS);
    assert SynPlaces(st) == st.g.refused + ClientsOf(st.g.acc) + others;
    RefusedIsNotAccepted(st.c.socks, st.g.refused, ClientsOf(st.g.acc), others, i);
  }

  lemma RefusedIsNotAccepted(socks: map<nat, Sock>, refused: seq<nat>, a: seq<nat>, others: seq<nat>, i: nat)
    requires SynOnce(socks, refused + a + others) && i < |a|
    ensures a[i] !in refused
  {
    var order := refused + a + others;
    assert order[|refused| + i] == a[i];
    forall j | 0 <= j < |refused|
      ensures refused[j] != a[i]
    {
      assert order[j] == refused[j];
    }
  }

  lemma QuietIsAccepted(st: State, k: nat)
    requires Inv(st) && Quiet(st) && st.g.est == st.g.acc && k in st.c.socks && Connected(st.c.socks[k])
    requires st.c.socks[k].port !in st.g.refused
    ensures st.c.socks[k].state.Established?
  {
    hide ListenersInv, OutInv, BackInv, ProxyInv, IdsInv, BacklogInv, HeldInv, PortsInv, EstInv, SynOnce;
    assert SynPlaces(st) == st.g.refused + ClientsOf(st.g.est);
    var i := EitherPlace(st.c.socks, st.g.refused, ClientsOf(st.g.est), k);
    EstOwner(st.c, st.g.est, i, k);
  }

  lemma EitherPlace(socks: map<nat, Sock>, refused: seq<nat>, a: seq<nat>, k: nat) returns (i: nat)
    requires SynOnce(socks, refused + a) && k in socks && Connected(socks[k]) && socks[k].port !in refused
    ensures i < |a| && a[i] == socks[k].port
  {
    var j :| 0 <= j < |refused + a| && (refused + a)[j] == socks[k].port;
    assert forall x :: 0 <= x < |refused| ==> (refused + a)[x] == refused[x];
    i := j - |refused|;
  }

  lemma EstOwner(c: Client, est: seq<Rec>, i: nat, k: nat)
    requires PortsInv(c) && EstInv(c.port2sock, c.socks, est) && i < |est|
    requires k in c.socks && Connected(c.socks[k]) && c.socks[k].port == est[i].client
    ensures c.socks[k].state.Established?
  {
    hide Ports.Typed;
    assert c.port2sock[est[i].client] in c.socks;
  }

  /** That wait has no end: however the run goes on, the socket stays as it is. */
  lemma {:induction false} RefusedForGood(cf: Config, schedule: seq<Label>, more: seq<Label>, k: nat)
    requires cf.Valid()
    requires var st := Run(cf, schedule);
             k in st.c.socks && Connected(st.c.socks[k]) && st.c.socks[k].port in st.g.refused
    ensures var st, st' := Run(cf, schedule), Run(cf, schedule + more);
            k in st'.c.socks && st'.c.socks[k] == st.c.socks[k] == Sock(Connecting, st.c.socks[k].port)
    ensures Run(cf, schedule).g.refused <= Run(cf, schedule + more).g.refused
    decreases |more|
  {
    hide Run, Step;
    WhenConnectHangs(cf, schedule, k);
    if more == [] {
      assert schedule + more == schedule;
    } else {
      var before, l := more[..|more| - 1], more[|more| - 1];
      RefusedForGood(cf, schedule, before, k);
      assert (schedule + more)[..|schedule + more| - 1] == schedule + before;
      LastStep(cf, schedule + more);
      StepKeepsRefused(cf, Run(cf, schedule + before), l);
      StepKeepsSock(cf, Run(cf, schedule + before), l, k);
      WhenConnectHangs(cf, schedule + more, k);
    }
  }

  lemma StepKeepsSock(cf: Config, st: State, l: Label, k: nat)
    requires cf.Valid() && Ports.Typed(st.c.ports) && k in st.c.socks && Connected(st.c.socks[k])
    ensures var socks := Step(cf, st, l).c.socks;
            k in socks && Connected(socks[k]) && socks[k].port == st.c.socks[k].port
  {
  }

  lemma StepKeepsRefused(cf: Config, st: State, l: Label)
    requires cf.Valid() && Ports.Typed(st.c.ports)
    ensures st.g.refused <= Step(cf, st, l).g.refused
  {
  }

  /** A push onto a backlog never fails: room was checked, and only `nts_accept` ran since. */
  lemma BacklogNeverOverflows(cf: Config, schedule: seq<Label>)
    requires cf.Valid()
    ensures var s := Run(cf, schedule).s;
            && (forall l :: l in s.listeners ==> |s.listeners[l].backlog| <= s.listeners[l].cap)
            && (s.mon.STold? ==> s.mon.r.listen in s.listeners &&
                                 |s.listeners[s.mon.r.listen].backlog| < s.listeners[s.mon.r.listen].cap)
  {
    hide EstInv, ListenersInv, OutInv, BackInv, HeldInv, ProxyInv, IdsInv, PortsInv, SynOnce;
    RunKeepsInv(cf, schedule);
  }

  /** Nor does a confirmation ever name a socket the listener does not have. */
  lemma ConfirmationFindsSocket(cf: Config, schedule: seq<Label>)
    requires cf.Valid()
    ensures var st := Run(cf, schedule);
            st.toS != [] && st.toS[0].ClientSynAck? ==>
              && st.toS[0].listen in st.s.listeners
              && st.toS[0].sockid in st.s.listeners[st.toS[0].listen].sockets
  {
    hide EstInv, ListenersInv, OutInv, BackInv, HeldInv, ProxyInv, BacklogInv, PortsInv, SynOnce;
    var st := Run(cf, schedule);
    RunKeepsInv(cf, schedule);
    if st.toS != [] && st.toS[0].ClientSynAck? {
      OutBound(st.toC, st.g.acc, st.g.handled);
      TakeAck(st.toS, st.g.est, st.g.done);
      var r := st.g.est[st.g.done];
      EstIsPrefix(st.g.acc, st.g.handled, st.g.est, st.c.mon);
      assert r in st.g.est && r.listen in st.s.listeners.Keys;
      ConfirmKeepsListeners(cf.ring, st.s.listeners, st.g.acc, st.g.est[..st.g.done], r);
    }
  }

  lemma Extend(cf: Config, schedule: seq<Label>, l: Label) returns (longer: seq<Label>)
    requires cf.Valid()
    ensures longer == schedule + [l] && Run(cf, longer) == Step(cf, Run(cf, schedule), l)
  {
    longer := schedule + [l];
    assert longer[..|schedule|] == schedule;
  }

  /** A connect to a port that nobody listens on: all is quiet and the client still waits. */
  lemma RefusedConnectHangs(cf: Config, id: nat, listen: nat) returns (p: seq<Label>)
    requires cf.Valid() && cf.ports > 0
    ensures var st := Run(cf, p);
            Quiet(st) && id in st.c.socks && st.c.socks[id].state.Connecting? && st.c.socks[id].port in st.g.refused
  {
    p := [];
    var st := Run(cf, p);
    assert Ports.Allocate(st.c.ports).0 == Some(0);
    hide Run, Ports.Allocate;
    p := Extend(cf, p, NewSock(id));
    p := Extend(cf, p, Connect(id, listen));
    p := Extend(cf, p, ServerMon);
    p := Extend(cf, p, ClientMon);
  }
}
