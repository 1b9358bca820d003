/**
 * The whole data path in one direction, for any number of connections that share one partition:
 *
 *   nts_write -> pool and ring -> send proxy -> NTB ring -> receive proxy -> pool and ring -> nts_read
 *
 * Every stage takes the small steps of its own module, and a schedule interleaves the steps of
 * all writers, all readers, both proxies and both directions of the bridge in any way.
 */
module Stream {
  import opened Options
  import opened Packets
  import opened Segments
  import Channel
  import NtbRing

  type Pipe = Channel.Trace<Bytes>

  /** A connection, named by the ports of the sending side. */
  datatype Key = Key(src: Port, dst: Port)

  /**
   * `max` payload bytes per packet; `port2conn` is the receiving proxy's table.  No connection
   * has port 0 at both ends, which is how the receiving proxy recognises "no packet so far".
   */
  datatype Config = Config(
    max: nat, pipe: Channel.Config, link: NtbRing.Config, keys: set<Key>, port2conn: map<nat, Key>)
  {
    ghost predicate Valid() {
      && max > 0 && pipe.Valid() && link.Valid() && Key(0, 0) !in keys
      && (forall k :: k in keys ==> ConnId(k.dst, k.src) in port2conn && port2conn[ConnId(k.dst, k.src)] == k)
    }
  }

  datatype Writer = WIdle | WBusy(rest: Bytes)

  datatype Reader =
    | DIdle(got: Bytes)                               // what the last call returned
    | DStart(n: nat)                                  // nts_read(n) was called
    | DWait(avail: nat, buf: Bytes)                   // waiting for the next packet
    | DFree(avail: nat, buf: Bytes, more: bool)       // giving its block back

  /** A completed `nts_read`: the bytes asked for and the bytes returned. */
  datatype Got = Got(n: nat, data: Bytes)

  /**
   * What the two applications see of a connection: the data of all `nts_write` calls so far, the
   * size of the `nts_read` in progress, and the completed reads.  No step looks at it.
   */
  datatype Calls = Calls(written: Bytes, asked: nat, done: seq<Got>)

  /** Both pipes of a connection, its two users, the leftover cache, and the applications' view. */
  datatype Conn = Conn(out: Pipe, inp: Pipe, wr: Writer, rd: Reader, cache: Bytes, calls: Calls)

  datatype Tx = XIdle | XServe(k: Key) | XEnqueue(k: Key) | XFree(k: Key)

  datatype Rx = YPoll | YSend(k: Key) | YDone

  /** The ports of the last packet, swapped, and the connection found for them. */
  datatype Last = Last(src: Port, dst: Port, conn: Option<Key>)

  datatype World = World(conns: map<Key, Conn>, link: NtbRing.Trace, tx: Tx, rx: Rx, last: Last)

  datatype Label =
    | Write(k: Key, data: Bytes)
    | WriterStep(k: Key)
    | TxStep(k: Key)                                  // k matters only when the proxy is idle
    | RxStep
    | DeliverSlot
    | DeliverIndex
    | Read(k: Key, n: nat)
    | ReaderStep(k: Key)

  ghost predicate Typed(c: Config, w: World) {
    && c.Valid() && w.conns.Keys == c.keys && NtbRing.Typed(c.link, w.link.m)
    && (forall k :: k in w.conns ==> TypedConn(c, w.conns[k]))
    && (w.tx.XIdle? || w.tx.k in w.conns) && (w.rx.YSend? ==> w.rx.k in w.conns)
  }

  // ---------- the four actors ----------

  predicate TypedConn(c: Config, n: Conn) {
    Channel.Typed(c.pipe, n.out.m) && Channel.Typed(c.pipe, n.inp.m)
  }

  function StepWriter(c: Config, n: Conn): (n': Conn)
    requires c.max > 0 && TypedConn(c, n)
    ensures TypedConn(c, n')
  {
    if n.wr.WIdle? then n
    else if !n.out.m.snd.SIdle? then n.(out := Channel.Extend(c.pipe, n.out, Channel.Sender))
    else if n.wr.rest == [] then n.(wr := WIdle)
    else
      var i := Chunk(c.max, |n.wr.rest|);
      var p := n.wr.rest[..i];
      n.(out := Channel.Extend(c.pipe, n.out, Channel.Send(p)),
         wr := WBusy(n.wr.rest[i..]))
  }

  function StepReader(c: Config, n: Conn): (n': Conn)
    requires TypedConn(c, n)
    ensures TypedConn(c, n')
  {
    match n.rd
    case DIdle(_) => n
    case DStart(avail) =>
      if n.cache != [] then
        var i := Absorb(c.max, avail, n.cache).copied;
        n.(rd := DIdle(n.cache[..i]), cache := n.cache[i..])
      else n.(rd := DWait(avail, []))
    case DWait(avail, buf) =>
      var r := n.inp.m.rcv;
      if r.RIdle? then n.(inp := Channel.Extend(c.pipe, n.inp, Channel.Look))
      else if r.RHold? then
        var a := Absorb(c.max, avail, r.p);
        n.(inp := Channel.Extend(c.pipe, n.inp, Channel.Release), cache := r.p[a.copied..],
           rd := DFree(avail - a.copied, buf + r.p[..a.copied], a.more))
      else n.(inp := Channel.Extend(c.pipe, n.inp, Channel.Receiver))
    case DFree(avail, buf, more) =>
      if !n.inp.m.rcv.RIdle? then n.(inp := Channel.Extend(c.pipe, n.inp, Channel.Receiver))
      else if more then n.(rd := DWait(avail, buf))
      else n.(rd := DIdle(buf))
  }

  function SetOut(w: World, k: Key, out: Pipe): World
    requires k in w.conns
  {
    w.(conns := w.conns[k := w.conns[k].(out := out)])
  }

  function SetIn(w: World, k: Key, inp: Pipe): World
    requires k in w.conns
  {
    w.(conns := w.conns[k := w.conns[k].(inp := inp)])
  }

  /** The send proxy serves one connection at a time, in any order. */
  function StepTx(c: Config, w: World, k: Key): World
    requires Typed(c, w)
  {
    match w.tx
    case XIdle =>
      if k in w.conns
      then SetOut(w, k, Channel.Extend(c.pipe, w.conns[k].out, Channel.Recv)).(tx := XServe(k))
      else w
    case XServe(k) =>
      var out := w.conns[k].out;
      if out.m.rcv.RHold? then
        w.(link := NtbRing.Extend(c.link, w.link, NtbRing.Send(Packet(k.src, k.dst, out.m.rcv.p))),
           tx := XEnqueue(k))
      else if out.m.rcv.RIdle? then w.(tx := XIdle)
      else SetOut(w, k, Channel.Extend(c.pipe, out, Channel.Receiver))
    case XEnqueue(k) =>
      if !w.link.m.snd.EIdle? then w.(link := NtbRing.Extend(c.link, w.link, NtbRing.Sender))
      else SetOut(w, k, Channel.Extend(c.pipe, w.conns[k].out, Channel.Release)).(tx := XFree(k))
    case XFree(k) =>
      if w.conns[k].out.m.rcv.RIdle? then w.(tx := XIdle)
      else SetOut(w, k, Channel.Extend(c.pipe, w.conns[k].out, Channel.Receiver))
  }

  /** The connection of a packet, looked up only when its ports differ from the last packet's. */
  function Lookup(c: Config, last: Last, p: Packet): Last {
    if last.src != p.dst || last.dst != p.src then
      var id := ConnId(p.dst, p.src);
      Last(p.dst, p.src, if id in c.port2conn then Some(c.port2conn[id]) else None)
    else last
  }

  /** The receive proxy files a packet with its connection before it looks at the next slot. */
  function StepRx(c: Config, w: World): World
    requires Typed(c, w)
  {
    match w.rx
    case YPoll =>
      if !w.link.m.rcv.QHold? then w.(link := NtbRing.Extend(c.link, w.link, NtbRing.Receiver))
      else
        var p := w.link.m.rcv.p;
        var last := Lookup(c, w.last, p);
        if last.conn.Some? && last.conn.value in w.conns then
          var k := last.conn.value;
          SetIn(w, k, Channel.Extend(c.pipe, w.conns[k].inp, Channel.Send(p.payload))).(last := last, rx := YSend(k))
        else w.(last := last)
    case YSend(k) =>
      var inp := Channel.Extend(c.pipe, w.conns[k].inp, Channel.Sender);
      var w' := SetIn(w, k, inp);
      if inp.m.snd.SIdle? then w'.(rx := YDone) else w'
    case YDone => w.(link := NtbRing.Extend(c.link, w.link, NtbRing.Forwarded), rx := YPoll)
  }

  function SetConn(w: World, k: Key, n: Conn): World {
    w.(conns := w.conns[k := n])
  }

  function Move(c: Config, w: World, l: Label): World
    requires Typed(c, w)
  {
    match l
    case Write(k, data) =>
      if k in w.conns && w.conns[k].wr.WIdle? then SetConn(w, k, w.conns[k].(wr := WBusy(data))) else w
    case WriterStep(k) => if k in w.conns then SetConn(w, k, StepWriter(c, w.conns[k])) else w
    case TxStep(k) => StepTx(c, w, k)
    case RxStep => StepRx(c, w)
    case DeliverSlot => w.(link := NtbRing.Extend(c.link, w.link, NtbRing.DeliverSlot))
    case DeliverIndex => w.(link := NtbRing.Extend(c.link, w.link, NtbRing.DeliverIndex))
    case Read(k, n) =>
      if k in w.conns && w.conns[k].rd.DIdle? && n > 0 then SetConn(w, k, w.conns[k].(rd := DStart(n))) else w
    case ReaderStep(k) => if k in w.conns then SetConn(w, k, StepReader(c, w.conns[k])) else w
  }

  /**
   * What the applications learn when a connection goes from `n` to `n'`: a call is accepted when
   * its thread is idle, and a read returns when its thread becomes idle.
   */
  function Observe(l: Label, n: Conn, n': Conn): Calls {
    if l.Write? && n.wr.WIdle? then n.calls.(written := n.calls.written + l.data)
    else if l.Read? && n.rd.DIdle? && l.n > 0 then n.calls.(asked := l.n)
    else if !n.rd.DIdle? && n'.rd.DIdle? then n.calls.(done := n.calls.done + [Got(n.calls.asked, n'.rd.got)])
    else n.calls
  }

  predicate OfUser(l: Label) { l.Write? || l.WriterStep? || l.Read? || l.ReaderStep? }

  /** A step, and what the application whose step it is sees of it. */
  function Step(c: Config, w: World, l: Label): World
    requires Typed(c, w)
  {
    var w' := Move(c, w, l);
    if OfUser(l) && l.k in w.conns && l.k in w'.conns then
      SetConn(w', l.k, w'.conns[l.k].(calls := Observe(l, w.conns[l.k], w'.conns[l.k])))
    else w'
  }

  // ---------- the invariant ----------

  function KeyOf(p: Packet): Key { Key(p.src, p.dst) }

  /** The payloads of one connection among all packets of the partition. */
  function Sub(k: Key, ps: seq<Packet>): seq<Bytes> {
    if ps == [] then []
    else Sub(k, ps[..|ps| - 1]) + (if KeyOf(ps[|ps| - 1]) == k then [ps[|ps| - 1].payload] else [])
  }

  /** Received from the connection's pipe but not yet written into the link. */
  function InTx(k: Key, r: Channel.Receiver<Bytes>, snd: NtbRing.Sender, tx: Tx): seq<Bytes> {
    if tx == XServe(k) && r.RHold? then [r.p]
    else if tx == XEnqueue(k) && (snd.ESpin? || snd.EFlag? || snd.EWrite?) then [snd.p.payload]
    else []
  }

  /** Taken from the link but not yet given to the connection's pipe. */
  function InRx(k: Key, rcv: NtbRing.Receiver, rx: Rx): seq<Bytes> {
    if rx.YPoll? && (rcv.QGot? || rcv.QHold?) && KeyOf(rcv.p) == k then [rcv.p.payload] else []
  }

  /** In the reader's hands: the buffer of the call in progress, a packet, the leftover. */
  function InReader(rd: Reader, r: Channel.Receiver<Bytes>, cache: Bytes): Bytes {
    (if rd.DWait? || rd.DFree? then rd.buf else []) + (if rd.DWait? && r.RHold? then r.p else []) + cache
  }

  /** Given to `nts_write` and not yet cut into packets. */
  function Uncut(wr: Writer): Bytes {
    if wr.WBusy? then wr.rest else []
  }

  /** All bytes that completed reads returned. */
  function Returned(done: seq<Got>): Bytes {
    if done == [] then [] else Returned(done[..|done| - 1]) + done[|done| - 1].data
  }

  predicate WriterInv(max: nat, out: Pipe, wr: Writer, written: Bytes) {
    && written == Concat(out.g.sent + Channel.Pending(out.m.snd)) + Uncut(wr)
    && AllFit(max, out.g.sent + Channel.Pending(out.m.snd))
  }

  predicate ReaderInv(max: nat, rd: Reader, r: Channel.Receiver<Bytes>, cache: Bytes) {
    && |cache| < max
    && (rd.DStart? ==> rd.n > 0) && (rd.DWait? ==> rd.avail > 0)
    && (rd.DWait? ==> cache == [])
    && (rd.DFree? ==> Channel.Freeing(r) || r.RIdle?)
    && (rd.DFree? && rd.more ==> cache == [] && rd.avail > 0)
    && (rd.DIdle? || rd.DStart? ==> r.RIdle?)
  }

  /** A read in progress has room for exactly the bytes still missing, and a completed one returned 1 to n bytes. */
  predicate AskedInv(rd: Reader, calls: Calls) {
    && (rd.DStart? ==> rd.n == calls.asked)
    && (rd.DWait? || rd.DFree? ==> |rd.buf| + rd.avail == calls.asked)
    && (rd.DFree? && !rd.more ==> |rd.buf| > 0)
    && (forall i :: 0 <= i < |calls.done| ==> 0 < |calls.done[i].data| <= calls.done[i].n)
  }

  predicate ReadInv(n: Conn) {
    Concat(n.inp.g.received) == Returned(n.calls.done) + InReader(n.rd, n.inp.m.rcv, n.cache)
  }

  ghost predicate ConnInv(c: Config, n: Conn) {
    && Channel.Inv(c.pipe, n.out.m, n.out.g) && Channel.Inv(c.pipe, n.inp.m, n.inp.g)
    && WriterInv(c.max, n.out, n.wr, n.calls.written)
    && ReaderInv(c.max, n.rd, n.inp.m.rcv, n.cache) && AskedInv(n.rd, n.calls) && ReadInv(n)
  }

  /** Nothing is lost, duplicated or reordered between the pipes and the link. */
  predicate Flow(k: Key, n: Conn, link: NtbRing.Trace, tx: Tx, rx: Rx) {
    && n.out.g.received == Sub(k, link.g.sent) + InTx(k, n.out.m.rcv, link.m.snd, tx)
    && Sub(k, link.g.taken) == n.inp.g.sent + Channel.Pending(n.inp.m.snd) + InRx(k, link.m.rcv, rx)
  }

  /** Each proxy touches only the pipes of the connection it is serving. */
  predicate Served(k: Key, r: Channel.Receiver<Bytes>, s: Channel.Sender<Bytes>, tx: Tx, rx: Rx) {
    && (tx.XIdle? || tx.k != k ==> r.RIdle?)
    && (tx == XEnqueue(k) ==> r.RHold?)
    && (tx == XFree(k) ==> Channel.Freeing(r) || r.RIdle?)
    && (s.SIdle? <==> rx != YSend(k))
  }

  ghost predicate Local(c: Config, k: Key, n: Conn, link: NtbRing.Trace, tx: Tx, rx: Rx) {
    ConnInv(c, n) && Flow(k, n, link, tx, rx) && Served(k, n.out.m.rcv, n.inp.m.snd, tx, rx)
  }

  predicate ProxyInv(m: NtbRing.Machine, tx: Tx, rx: Rx) {
    && (!tx.XEnqueue? ==> m.snd.EIdle?)
    && (m.snd.ESpin? || m.snd.EFlag? || m.snd.EWrite? ==> tx.XEnqueue? && KeyOf(m.snd.p) == tx.k)
    && (rx.YSend? || rx.YDone? ==> m.rcv.QHold?) && (rx.YSend? ==> KeyOf(m.rcv.p) == rx.k)
  }

  ghost predicate LastInv(c: Config, last: Last) {
    (last.src == 0 && last.dst == 0) ||
    (Key(last.dst, last.src) in c.keys ==> last.conn == Some(Key(last.dst, last.src)))
  }

  predicate LinkKeys(keys: set<Key>, ps: seq<Packet>) {
    forall i :: 0 <= i < |ps| ==> KeyOf(ps[i]) in keys
  }

  ghost predicate Inv(c: Config, w: World) {
    && Typed(c, w) && NtbRing.Inv(c.link, w.link.m, w.link.g)
    && (forall k :: k in w.conns ==> Local(c, k, w.conns[k], w.link, w.tx, w.rx))
    && ProxyInv(w.link.m, w.tx, w.rx) && LastInv(c, w.last) && LinkKeys(c.keys, w.link.g.sent)
  }

  // ---------- every step keeps it ----------

  /** What the writer's step leaves alone, and what it means to the application. */
  lemma WriterKeepsConn(c: Config, n: Conn)
    requires c.max > 0 && TypedConn(c, n) && ConnInv(c, n)
    ensures var n' := StepWriter(c, n);
            && ConnInv(c, n') && n'.inp == n.inp && n'.rd == n.rd && n'.calls == n.calls
            && n'.out.m.rcv == n.out.m.rcv && n'.out.g.received == n.out.g.received
  {
    hide Channel.Inv, Channel.Typed, Channel.Extend, ReaderInv, ReadInv, WriterInv, AskedInv;
    var n' := StepWriter(c, n);
    if n.wr.WBusy? {
      if !n.out.m.snd.SIdle? {
        Channel.SenderStep(c.pipe, n.out);
        WriterSame(c.max, n.out, n'.out, n.wr, n.wr, n.calls.written);
      } else if n.wr.rest != [] {
        var i := Chunk(c.max, |n.wr.rest|);
        Channel.SendAccepts(c.pipe, n.out, n.wr.rest[..i]);
        WriterAccepts(c.max, n.out, n'.out, n.wr.rest, i, n.calls.written);
      } else {
        WriterSame(c.max, n.out, n'.out, n.wr, n'.wr, n.calls.written);
      }
    }
    assert ReadInv(n') by {
      ReadSame(n, n');
    }
  }

  lemma WriterSame(max: nat, out: Pipe, out': Pipe, wr: Writer, wr': Writer, written: Bytes)
    requires WriterInv(max, out, wr, written) && Uncut(wr') == Uncut(wr)
    requires out'.g.sent + Channel.Pending(out'.m.snd) == out.g.sent + Channel.Pending(out.m.snd)
    ensures WriterInv(max, out', wr', written)
  {
  }

  lemma WriterAccepts(max: nat, out: Pipe, out': Pipe, rest: Bytes, i: nat, written: Bytes)
    requires WriterInv(max, out, WBusy(rest), written) && out.m.snd.SIdle? && i <= |rest| && Fits(max, rest[..i])
    requires out'.g.sent == out.g.sent && Channel.Pending(out'.m.snd) == [rest[..i]]
    ensures WriterInv(max, out', WBusy(rest[i..]), written)
  {
    hide Concat;
    ConcatMore(out.g.sent, rest[..i]);
    assert out.g.sent + [] == out.g.sent;
    assert Concat(out.g.sent) + rest == (Concat(out.g.sent) + rest[..i]) + rest[i..];
  }

  lemma ReadSame(n: Conn, n': Conn)
    requires ReadInv(n) && n'.inp == n.inp && n'.rd == n.rd && n'.cache == n.cache && n'.calls.done == n.calls.done
    ensures ReadInv(n')
  {
  }

  /** What the reader's step leaves alone. */
  predicate SameInterface(n: Conn, n': Conn) {
    && n'.out == n.out && n'.wr == n.wr && n'.calls.written == n.calls.written
    && n'.inp.m.snd == n.inp.m.snd && n'.inp.g.sent == n.inp.g.sent
  }

  /** The reader's step as the application sees it. */
  function ReaderSteps(c: Config, n: Conn): Conn
    requires TypedConn(c, n)
  {
    var n' := StepReader(c, n);
    n'.(calls := Observe(ReaderStep(Key(0, 0)), n, n'))
  }

  lemma ReturnedMore(done: seq<Got>, g: Got)
    ensures Returned(done + [g]) == Returned(done) + g.data
  {
    assert (done + [g])[..|done|] == done;
  }

  lemma ReadFromCacheKeepsConn(c: Config, n: Conn)
    requires c.max > 0 && TypedConn(c, n) && ConnInv(c, n) && n.rd.DStart?
    ensures ConnInv(c, ReaderSteps(c, n)) && SameInterface(n, ReaderSteps(c, n))
  {
    hide Channel.Inv, Channel.Typed, Channel.Extend, WriterInv, Concat, Returned, ReadInv;
    var n' := ReaderSteps(c, n);
    if n.cache != [] {
      var i := Absorb(c.max, n.rd.n, n.cache).copied;
      CacheKeepsRead(n, n', i);
    } else {
      WaitKeepsRead(n, n');
    }
  }

  lemma CacheKeepsRead(n: Conn, n': Conn, i: nat)
    requires ReadInv(n) && n.rd.DStart? && i <= |n.cache|
    requires n'.inp == n.inp && n'.rd.DIdle? && n'.cache == n.cache[i..]
    requires n'.calls.done == n.calls.done + [Got(n.calls.asked, n.cache[..i])]
    ensures ReadInv(n')
  {
    hide Concat, Returned;
    var read := Returned(n.calls.done);
    ReturnedMore(n.calls.done, Got(n.calls.asked, n.cache[..i]));
    assert read + ([] + [] + n.cache) == (read + n.cache[..i]) + ([] + [] + n.cache[i..]);
  }

  lemma WaitKeepsRead(n: Conn, n': Conn)
    requires ReadInv(n) && n.rd.DStart? && n.inp.m.rcv.RIdle?
    requires n'.inp == n.inp && n'.rd.DWait? && n'.rd.buf == [] && n'.cache == n.cache && n'.calls.done == n.calls.done
    ensures ReadInv(n')
  {
    hide Concat, Returned;
  }

  lemma ReadFromPipeKeepsConn(c: Config, n: Conn)
    requires c.max > 0 && TypedConn(c, n) && ConnInv(c, n) && n.rd.DWait?
    requires AllFit(c.max, n.inp.g.received)
    ensures ConnInv(c, ReaderSteps(c, n)) && SameInterface(n, ReaderSteps(c, n))
  {
    hide Channel.Inv, Channel.Typed, Channel.Extend, WriterInv, Concat, Returned;
    var r := n.inp.m.rcv;
    if r.RIdle? {
      Channel.ReceiverStarts(c.pipe, n.inp, Channel.Look);
    } else if r.RHold? {
      Channel.ReceivedIsPrefix(c.pipe, n.inp);
      Channel.ReceiverStarts(c.pipe, n.inp, Channel.Release);
      var i := Absorb(c.max, n.rd.avail, r.p).copied;
      assert Fits(c.max, r.p);
      CutAnywhere(Returned(n.calls.done), n.rd.buf, r.p, i);
    } else {
      Channel.ReceiverStep(c.pipe, n.inp);
      var n' := StepReader(c, n);
      if n'.inp.m.rcv.RHold? {
        ConcatMore(n.inp.g.received, n'.inp.m.rcv.p);
      }
    }
  }

  lemma CutAnywhere(read: Bytes, buf: Bytes, p: Bytes, i: nat)
    requires i <= |p|
    ensures read + (buf + p + []) == read + ((buf + p[..i]) + [] + p[i..])
  {
  }

  lemma ReadFreeKeepsConn(c: Config, n: Conn)
    requires c.max > 0 && TypedConn(c, n) && ConnInv(c, n) && n.rd.DFree?
    ensures ConnInv(c, ReaderSteps(c, n)) && SameInterface(n, ReaderSteps(c, n))
  {
    hide Channel.Inv, Channel.Typed, Channel.Extend, WriterInv, Concat, Returned;
    if !n.inp.m.rcv.RIdle? {
      Channel.ReceiverStep(c.pipe, n.inp);
    } else if !n.rd.more {
      var read := Returned(n.calls.done);
      ReturnedMore(n.calls.done, Got(n.calls.asked, n.rd.buf));
      assert read + (n.rd.buf + [] + n.cache) == (read + n.rd.buf) + ([] + [] + n.cache);
    }
  }

  lemma SubMore(k: Key, ps: seq<Packet>, p: Packet)
    ensures Sub(k, ps + [p]) == Sub(k, ps) + (if KeyOf(p) == k then [p.payload] else [])
  {
    assert (ps + [p])[..|ps|] == ps;
  }

  lemma Regroup(a: seq<Bytes>, b: seq<Bytes>, c: seq<Bytes>)
    ensures (a + b) + c == a + (b + c)
  {
  }

  lemma {:induction false} SubSplit(k: Key, ps: seq<Packet>, n: nat)
    requires n <= |ps|
    ensures Sub(k, ps) == Sub(k, ps[..n]) + Sub(k, ps[n..])
    decreases |ps|
  {
    if n == |ps| {
      assert ps[..n] == ps;
    } else {
      hide Sub;
      var q, p := ps[..|ps| - 1], ps[|ps| - 1];
      SubSplit(k, q, n);
      assert q[..n] == ps[..n] && ps[n..] == q[n..] + [p] && ps == q + [p];
      SubMore(k, q, p);
      SubMore(k, q[n..], p);
      Regroup(Sub(k, q[..n]), Sub(k, q[n..]), if KeyOf(p) == k then [p.payload] else []);
    }
  }

  /** The packets read on a connection are the first packets written on it. */
  lemma PacketsArePrefix(c: Config, k: Key, n: Conn, link: NtbRing.Trace, tx: Tx, rx: Rx)
    requires Local(c, k, n, link, tx, rx) && link.g.taken <= link.g.sent
    ensures n.inp.g.received <= n.inp.g.sent <= n.out.g.received <= n.out.g.sent
    ensures AllFit(c.max, n.inp.g.received)
  {
    hide Channel.Inv, ReaderInv, ReadInv, InTx, InRx, Sub, Concat;
    Channel.ReceivedIsPrefix(c.pipe, n.out);
    Channel.ReceivedIsPrefix(c.pipe, n.inp);
    SubSplit(k, link.g.sent, |link.g.taken|);
    assert link.g.sent[..|link.g.taken|] == link.g.taken;
    assert n.inp.g.sent <= Sub(k, link.g.taken);
    assert Sub(k, link.g.taken) <= Sub(k, link.g.sent) <= n.out.g.received;
    forall i | 0 <= i < |n.inp.g.received|
      ensures Fits(c.max, n.inp.g.received[i])
    {
      assert n.inp.g.received[i] == (n.out.g.sent + Channel.Pending(n.out.m.snd))[i];
    }
  }

  /** What flows through the proxies depends only on the ends of the pipes that face them. */
  lemma SameEndsSameFlow(k: Key, n: Conn, n': Conn, link: NtbRing.Trace, tx: Tx, rx: Rx)
    requires n'.out.m.rcv == n.out.m.rcv && n'.out.g.received == n.out.g.received
    requires n'.inp.m.snd == n.inp.m.snd && n'.inp.g.sent == n.inp.g.sent
    requires Flow(k, n, link, tx, rx)
    ensures Flow(k, n', link, tx, rx)
  {
  }

  lemma ConnStepKeepsInv(c: Config, w: World, k: Key, n': Conn)
    requires Inv(c, w) && k in w.conns && ConnInv(c, n') && TypedConn(c, n')
    requires n'.out.m.rcv == w.conns[k].out.m.rcv && n'.out.g.received == w.conns[k].out.g.received
    requires n'.inp.m.snd == w.conns[k].inp.m.snd && n'.inp.g.sent == w.conns[k].inp.g.sent
    ensures Inv(c, SetConn(w, k, n'))
  {
    hide NtbRing.Inv, TypedConn, NtbRing.Typed, LastInv, ConnInv, LinkKeys, ProxyInv, Flow, Served;
    assert Local(c, k, w.conns[k], w.link, w.tx, w.rx);
    SameEndsSameFlow(k, w.conns[k], n', w.link, w.tx, w.rx);
    assert Local(c, k, n', w.link, w.tx, w.rx);
  }

  lemma WriterKeepsInv(c: Config, w: World, k: Key)
    requires Inv(c, w) && k in w.conns
    ensures Inv(c, Step(c, w, WriterStep(k)))
  {
    hide TypedConn, NtbRing.Inv, NtbRing.Typed, Flow, Served, ConnInv, LastInv, LinkKeys, ProxyInv, StepWriter;
    assert Local(c, k, w.conns[k], w.link, w.tx, w.rx);
    WriterKeepsConn(c, w.conns[k]);
    ConnStepKeepsInv(c, w, k, StepWriter(c, w.conns[k]));
    SetTwice(w, k, StepWriter(c, w.conns[k]), StepWriter(c, w.conns[k]));
  }

  lemma ReaderKeepsInv(c: Config, w: World, k: Key)
    requires Inv(c, w) && k in w.conns
    ensures Inv(c, Step(c, w, ReaderStep(k)))
  {
    hide TypedConn, NtbRing.Inv, NtbRing.Typed, Flow, Served, ConnInv, LastInv, LinkKeys, ProxyInv, StepReader;
    var n := w.conns[k];
    assert TypedConn(c, ReaderSteps(c, n)) by {
      StepsTyped(c, n);
    }
    assert Local(c, k, n, w.link, w.tx, w.rx);
    NtbRing.TypedFromInv(c.link, w.link.m, w.link.g);
    PacketsArePrefix(c, k, n, w.link, w.tx, w.rx);
    ReaderKeepsConn(c, n);
    ConnStepKeepsInv(c, w, k, ReaderSteps(c, n));
    SetTwice(w, k, StepReader(c, n), ReaderSteps(c, n));
  }

  lemma SetTwice(w: World, k: Key, a: Conn, b: Conn)
    ensures SetConn(SetConn(w, k, a), k, b) == SetConn(w, k, b)
    ensures k in w.conns && b == w.conns[k] ==> SetConn(w, k, b) == w
  {
  }

  lemma StepsTyped(c: Config, n: Conn)
    requires TypedConn(c, n)
    ensures TypedConn(c, ReaderSteps(c, n))
  {
    hide Channel.Typed, Channel.Extend;
  }

  lemma ReaderKeepsConn(c: Config, n: Conn)
    requires c.max > 0 && TypedConn(c, n) && ConnInv(c, n)
    requires AllFit(c.max, n.inp.g.received)
    ensures ConnInv(c, ReaderSteps(c, n)) && SameInterface(n, ReaderSteps(c, n))
  {
    hide ConnInv, TypedConn;
    match n.rd
    case DIdle(_) =>
    case DStart(_) => ReadFromCacheKeepsConn(c, n);
    case DWait(_, _) => ReadFromPipeKeepsConn(c, n);
    case DFree(_, _, _) => ReadFreeKeepsConn(c, n);
  }

  lemma WriteKeepsConn(c: Config, n: Conn, data: Bytes)
    requires ConnInv(c, n) && n.wr.WIdle?
    ensures ConnInv(c, n.(wr := WBusy(data), calls := n.calls.(written := n.calls.written + data)))
  {
    hide Channel.Inv, ReaderInv, WriterInv, ReadInv;
    WriteStarts(c.max, n.out, n.calls.written, data);
    ReadSame(n, n.(wr := WBusy(data), calls := n.calls.(written := n.calls.written + data)));
  }

  lemma ReadStartKeepsConn(c: Config, n: Conn, k: nat)
    requires ConnInv(c, n) && n.rd.DIdle? && k > 0
    ensures ConnInv(c, n.(rd := DStart(k), calls := n.calls.(asked := k)))
  {
    hide Channel.Inv, WriterInv, Concat, Returned;
  }

  lemma WriteCallKeepsInv(c: Config, w: World, k: Key, data: Bytes)
    requires Inv(c, w) && k in w.conns && w.conns[k].wr.WIdle?
    ensures Inv(c, Step(c, w, Write(k, data)))
  {
    hide NtbRing.Inv, NtbRing.Typed, Flow, Served, LastInv, LinkKeys, ProxyInv, ConnInv, Channel.Typed;
    var n := w.conns[k];
    assert Local(c, k, n, w.link, w.tx, w.rx);
    var n' := n.(wr := WBusy(data), calls := n.calls.(written := n.calls.written + data));
    WriteKeepsConn(c, n, data);
    ConnStepKeepsInv(c, w, k, n');
    SetTwice(w, k, n.(wr := WBusy(data)), n');
  }

  lemma ReadCallKeepsInv(c: Config, w: World, k: Key, m: nat)
    requires Inv(c, w) && k in w.conns && w.conns[k].rd.DIdle? && m > 0
    ensures Inv(c, Step(c, w, Read(k, m)))
  {
    hide NtbRing.Inv, NtbRing.Typed, Flow, Served, LastInv, LinkKeys, ProxyInv, ConnInv, Channel.Typed;
    var n := w.conns[k];
    assert Local(c, k, n, w.link, w.tx, w.rx);
    var n' := n.(rd := DStart(m), calls := n.calls.(asked := m));
    ReadStartKeepsConn(c, n, m);
    ConnStepKeepsInv(c, w, k, n');
    SetTwice(w, k, n.(rd := DStart(m)), n');
  }

  lemma CallKeepsInv(c: Config, w: World, l: Label)
    requires Inv(c, w) && (l.Write? || l.Read?)
    ensures Inv(c, Step(c, w, l))
  {
    hide NtbRing.Inv, NtbRing.Typed, Local, LastInv, LinkKeys, ProxyInv, TypedConn;
    if l.k in w.conns {
      var n := w.conns[l.k];
      if l.Write? && n.wr.WIdle? {
        WriteCallKeepsInv(c, w, l.k, l.data);
      } else if l.Read? && n.rd.DIdle? && l.n > 0 {
        ReadCallKeepsInv(c, w, l.k, l.n);
      } else {
        SetTwice(w, l.k, n, n);
      }
    }
  }

  lemma WriteStarts(max: nat, out: Pipe, written: Bytes, data: Bytes)
    requires WriterInv(max, out, WIdle, written)
    ensures WriterInv(max, out, WBusy(data), written + data)
  {
    hide Concat;
    assert written + [] == written;
  }

  // ---------- the send proxy ----------

  /** The send proxy turns to or from connection k, which may change; the link stays as it is. */
  lemma TxTurnKeepsInv(c: Config, w: World, k: Key, n': Conn, tx': Tx)
    requires Inv(c, w) && k in w.conns && TypedConn(c, n') && Local(c, k, n', w.link, tx', w.rx)
    requires (w.tx.XIdle? || w.tx.k == k) && (tx'.XIdle? || tx'.k == k)
    requires ProxyInv(w.link.m, tx', w.rx)
    ensures Inv(c, SetConn(w, k, n').(tx := tx'))
  {
    hide NtbRing.Inv, NtbRing.Typed, TypedConn, LastInv, LinkKeys, Local;
    forall k2 | k2 in w.conns && k2 != k
      ensures Local(c, k2, w.conns[k2], w.link, tx', w.rx)
    {
      OtherTx(c, k2, w.conns[k2], w.link, w.tx, tx', w.rx);
    }
  }

  /** A connection that the send proxy is not busy with does not see it turn. */
  lemma OtherTx(c: Config, k: Key, n: Conn, link: NtbRing.Trace, tx: Tx, tx': Tx, rx: Rx)
    requires Local(c, k, n, link, tx, rx)
    requires (tx.XIdle? || tx.k != k) && (tx'.XIdle? || tx'.k != k)
    ensures Local(c, k, n, link, tx', rx)
  {
    hide ConnInv, InRx, Sub;
  }

  /** A step of the link that the send proxy makes for connection k. */
  lemma TxLinkKeepsInv(c: Config, w: World, k: Key, link': NtbRing.Trace, tx': Tx)
    requires Inv(c, w) && k in w.conns && w.tx in {XServe(k), XEnqueue(k)} && tx' == XEnqueue(k)
    requires NtbRing.Inv(c.link, link'.m, link'.g)
    requires link'.m.rcv == w.link.m.rcv && link'.g.taken == w.link.g.taken
    requires link'.g.sent == w.link.g.sent ||
             exists p :: KeyOf(p) == k && link'.g.sent == w.link.g.sent + [p]
    requires Local(c, k, w.conns[k], link', tx', w.rx) && ProxyInv(link'.m, tx', w.rx)
    ensures Inv(c, w.(link := link', tx := tx'))
  {
    hide NtbRing.Inv, NtbRing.Typed, TypedConn, LastInv, Local;
    NtbRing.TypedFromInv(c.link, link'.m, link'.g);
    forall k2 | k2 in w.conns && k2 != k
      ensures Local(c, k2, w.conns[k2], link', tx', w.rx)
    {
      OtherTxLink(c, k2, w.conns[k2], w.link, link', w.tx, tx', w.rx, k);
    }
  }

  /** A packet written for another connection is none of this one. */
  lemma OtherTxLink(c: Config, k2: Key, n: Conn, link: NtbRing.Trace, link': NtbRing.Trace,
                    tx: Tx, tx': Tx, rx: Rx, k: Key)
    requires Local(c, k2, n, link, tx, rx) && k != k2 && tx in {XServe(k), XEnqueue(k)} && tx' == XEnqueue(k)
    requires link'.m.rcv == link.m.rcv && link'.g.taken == link.g.taken
    requires link'.g.sent == link.g.sent || exists p :: KeyOf(p) == k && link'.g.sent == link.g.sent + [p]
    ensures Local(c, k2, n, link', tx', rx)
  {
    hide ConnInv, Sub, InRx;
    if link'.g.sent != link.g.sent {
      var p :| KeyOf(p) == k && link'.g.sent == link.g.sent + [p];
      SubMore(k2, link.g.sent, p);
    }
  }

  lemma TxIdleKeepsInv(c: Config, w: World, k: Key)
    requires Inv(c, w) && w.tx.XIdle? && k in w.conns
    ensures Inv(c, StepTx(c, w, k))
  {
    hide NtbRing.Inv, NtbRing.Typed, Channel.Inv, Channel.Typed, Channel.Extend, LastInv, LinkKeys, Sub, InRx,
         WriterInv, ReaderInv, ReadInv;
    var n := w.conns[k];
    assert Local(c, k, n, w.link, w.tx, w.rx);
    Channel.ReceiverStarts(c.pipe, n.out, Channel.Recv);
    WriterSees(c, n, Channel.Extend(c.pipe, n.out, Channel.Recv));
    TxTurnKeepsInv(c, w, k, n.(out := Channel.Extend(c.pipe, n.out, Channel.Recv)), XServe(k));
  }

  /** The writer's side of a pipe does not see the other side move. */
  lemma WriterSees(c: Config, n: Conn, out': Pipe)
    requires ConnInv(c, n) && Channel.Inv(c.pipe, out'.m, out'.g)
    requires out'.g.sent == n.out.g.sent && out'.m.snd == n.out.m.snd
    ensures ConnInv(c, n.(out := out'))
  {
  }

  lemma TxServeKeepsInv(c: Config, w: World)
    requires Inv(c, w) && w.tx.XServe?
    ensures Inv(c, StepTx(c, w, w.tx.k))
  {
    hide NtbRing.Inv, NtbRing.Typed, NtbRing.Extend, Channel.Inv, Channel.Typed, Channel.Extend, LastInv, LinkKeys,
         Sub, InRx, WriterInv, ReaderInv, ReadInv;
    var k, n := w.tx.k, w.conns[w.tx.k];
    assert Local(c, k, n, w.link, w.tx, w.rx);
    if n.out.m.rcv.RHold? {
      var p := Packet(k.src, k.dst, n.out.m.rcv.p);
      NtbRing.SendAccepts(c.link, w.link, p);
      TxLinkKeepsInv(c, w, k, NtbRing.Extend(c.link, w.link, NtbRing.Send(p)), XEnqueue(k));
    } else if n.out.m.rcv.RIdle? {
      TxTurnKeepsInv(c, w, k, n, XIdle);
      assert w.conns[k := n] == w.conns;
    } else {
      var out' := Channel.Extend(c.pipe, n.out, Channel.Receiver);
      Channel.ReceiverStep(c.pipe, n.out);
      WriterSees(c, n, out');
      TxTurnKeepsInv(c, w, k, n.(out := out'), w.tx);
    }
  }

  lemma TxEnqueueKeepsInv(c: Config, w: World)
    requires Inv(c, w) && w.tx.XEnqueue?
    ensures Inv(c, StepTx(c, w, w.tx.k))
  {
    hide NtbRing.Inv, NtbRing.Typed, NtbRing.Extend, Channel.Inv, Channel.Typed, Channel.Extend, LastInv, LinkKeys,
         Sub, InRx, WriterInv, ReaderInv, ReadInv;
    var k, n := w.tx.k, w.conns[w.tx.k];
    assert Local(c, k, n, w.link, w.tx, w.rx);
    if !w.link.m.snd.EIdle? {
      NtbRing.SenderStep(c.link, w.link);
      if w.link.m.snd.EWrite? {
        SubMore(k, w.link.g.sent, w.link.m.snd.p);
      }
      TxLinkKeepsInv(c, w, k, NtbRing.Extend(c.link, w.link, NtbRing.Sender), w.tx);
    } else {
      var out' := Channel.Extend(c.pipe, n.out, Channel.Release);
      Channel.ReceiverStarts(c.pipe, n.out, Channel.Release);
      WriterSees(c, n, out');
      TxTurnKeepsInv(c, w, k, n.(out := out'), XFree(k));
    }
  }

  lemma TxFreeKeepsInv(c: Config, w: World)
    requires Inv(c, w) && w.tx.XFree?
    ensures Inv(c, StepTx(c, w, w.tx.k))
  {
    hide NtbRing.Inv, NtbRing.Typed, NtbRing.Extend, Channel.Inv, Channel.Typed, Channel.Extend, LastInv, LinkKeys,
         Sub, InRx, WriterInv, ReaderInv, ReadInv;
    var k, n := w.tx.k, w.conns[w.tx.k];
    assert Local(c, k, n, w.link, w.tx, w.rx);
    if n.out.m.rcv.RIdle? {
      TxTurnKeepsInv(c, w, k, n, XIdle);
      assert w.conns[k := n] == w.conns;
    } else {
      var out' := Channel.Extend(c.pipe, n.out, Channel.Receiver);
      Channel.ReceiverStep(c.pipe, n.out);
      WriterSees(c, n, out');
      TxTurnKeepsInv(c, w, k, n.(out := out'), w.tx);
    }
  }

  // ---------- the receive proxy and the bridge ----------

  /** The reader's side of a pipe does not see the other side move. */
  lemma ReaderSees(c: Config, n: Conn, inp': Pipe)
    requires ConnInv(c, n) && Channel.Inv(c.pipe, inp'.m, inp'.g)
    requires inp'.g.received == n.inp.g.received && inp'.m.rcv == n.inp.m.rcv
    ensures ConnInv(c, n.(inp := inp'))
  {
  }

  lemma DeliveryKeepsInv(c: Config, w: World, l: NtbRing.Label)
    requires Inv(c, w) && (l.DeliverSlot? || l.DeliverIndex?)
    ensures Inv(c, w.(link := NtbRing.Extend(c.link, w.link, l)))
  {
    hide NtbRing.Inv, NtbRing.Typed, NtbRing.Extend, TypedConn, ConnInv, LastInv, LinkKeys, Sub, InRx, InTx;
    var link' := NtbRing.Extend(c.link, w.link, l);
    NtbRing.DeliveryStep(c.link, w.link, l);
    NtbRing.TypedFromInv(c.link, link'.m, link'.g);
    forall k | k in w.conns
      ensures Local(c, k, w.conns[k], link', w.tx, w.rx)
    {
      assert Local(c, k, w.conns[k], w.link, w.tx, w.rx);
    }
  }

  lemma RxLinkKeepsInv(c: Config, w: World)
    requires Inv(c, w) && (w.rx.YDone? || (w.rx.YPoll? && !w.link.m.rcv.QHold?))
    ensures Inv(c, StepRx(c, w))
  {
    hide NtbRing.Inv, NtbRing.Typed, NtbRing.Extend, TypedConn, LastInv, LinkKeys, Local;
    var w' := StepRx(c, w);
    if w.rx.YDone? {
      NtbRing.ForwardedStep(c.link, w.link);
    } else {
      NtbRing.ReceiverStep(c.link, w.link);
    }
    NtbRing.TypedFromInv(c.link, w'.link.m, w'.link.g);
    forall k | k in w.conns
      ensures Local(c, k, w.conns[k], w'.link, w.tx, w'.rx)
    {
      if w.rx.YDone? {
        DoneRx(c, k, w.conns[k], w.link, w'.link, w.tx);
      } else {
        PolledRx(c, k, w.conns[k], w.link, w'.link, w.tx);
      }
    }
  }

  /** The receive proxy is done with its packet. */
  lemma DoneRx(c: Config, k: Key, n: Conn, link: NtbRing.Trace, link': NtbRing.Trace, tx: Tx)
    requires Local(c, k, n, link, tx, YDone)
    requires link'.g == link.g && link'.m.snd == link.m.snd && link'.m.rcv.QClear?
    ensures Local(c, k, n, link', tx, YPoll)
  {
    hide ConnInv, Sub, InTx;
  }

  /** The receive proxy looks at the ring: the packet it takes, if any, is in its hands. */
  lemma PolledRx(c: Config, k: Key, n: Conn, link: NtbRing.Trace, link': NtbRing.Trace, tx: Tx)
    requires Local(c, k, n, link, tx, YPoll) && !link.m.rcv.QHold?
    requires link'.g.sent == link.g.sent && link'.m.snd == link.m.snd
    requires if link.m.rcv.QPoll? && link'.m.rcv.QGot? then link'.g.taken == link.g.taken + [link'.m.rcv.p]
             else link'.g.taken == link.g.taken
    requires link'.m.rcv.QGot? ==> link.m.rcv.QPoll?
    requires link.m.rcv.QGot? ==> link'.m.rcv == NtbRing.QHold(link.m.rcv.p)
    requires link'.m.rcv.QHold? ==> link.m.rcv.QGot?
    ensures Local(c, k, n, link', tx, YPoll)
  {
    hide ConnInv, Sub, InTx;
    if link'.g.taken != link.g.taken {
      SubMore(k, link.g.taken, link'.m.rcv.p);
      assert n.inp.g.sent + Channel.Pending(n.inp.m.snd) + [] == n.inp.g.sent + Channel.Pending(n.inp.m.snd);
    }
  }

  /** The connection found for a packet is the one it was sent on. */
  lemma LookupFindsConnection(c: Config, last: Last, p: Packet)
    requires c.Valid() && LastInv(c, last) && KeyOf(p) in c.keys
    ensures LastInv(c, Lookup(c, last, p)) && Lookup(c, last, p).conn == Some(KeyOf(p))
  {
  }

  lemma RxFileKeepsInv(c: Config, w: World)
    requires Inv(c, w) && w.rx.YPoll? && w.link.m.rcv.QHold?
    ensures Inv(c, StepRx(c, w))
  {
    hide NtbRing.Inv, NtbRing.Typed, Channel.Inv, Channel.Typed, Channel.Extend, LastInv, Lookup, Sub, InTx,
         WriterInv, ReaderInv, ReadInv;
    var p := w.link.m.rcv.p;
    NtbRing.TypedFromInv(c.link, w.link.m, w.link.g);
    assert p == w.link.g.sent[|w.link.g.taken| - 1];
    LookupFindsConnection(c, w.last, p);
    var k := KeyOf(p);
    var n := w.conns[k];
    assert Local(c, k, n, w.link, w.tx, w.rx);
    var inp' := Channel.Extend(c.pipe, n.inp, Channel.Send(p.payload));
    Channel.SendAccepts(c.pipe, n.inp, p.payload);
    ReaderSees(c, n, inp');
    RxTurnKeepsInv(c, w, k, n.(inp := inp'), YSend(k), Lookup(c, w.last, p));
  }

  /** The receive proxy turns to or from connection k, which may change; the link stays as it is. */
  lemma RxTurnKeepsInv(c: Config, w: World, k: Key, n': Conn, rx': Rx, last': Last)
    requires Inv(c, w) && k in w.conns && TypedConn(c, n') && Local(c, k, n', w.link, w.tx, rx')
    requires w.link.m.rcv.QHold? && KeyOf(w.link.m.rcv.p) == k
    requires (w.rx.YSend? ==> w.rx.k == k) && (rx'.YSend? ==> rx'.k == k)
    requires LastInv(c, last')
    ensures Inv(c, SetConn(w, k, n').(rx := rx', last := last'))
  {
    hide NtbRing.Inv, NtbRing.Typed, TypedConn, LastInv, LinkKeys, Local;
    forall k2 | k2 in w.conns && k2 != k
      ensures Local(c, k2, w.conns[k2], w.link, w.tx, rx')
    {
      OtherRx(c, k2, w.conns[k2], w.link, w.tx, w.rx, rx');
    }
  }

  /** A connection that the receive proxy is not busy with does not see it turn. */
  lemma OtherRx(c: Config, k: Key, n: Conn, link: NtbRing.Trace, tx: Tx, rx: Rx, rx': Rx)
    requires Local(c, k, n, link, tx, rx)
    requires link.m.rcv.QHold? && KeyOf(link.m.rcv.p) != k
    requires (rx.YSend? ==> rx.k != k) && (rx'.YSend? ==> rx'.k != k)
    ensures Local(c, k, n, link, tx, rx')
  {
    hide ConnInv, InTx, Sub;
  }

  lemma RxSendKeepsInv(c: Config, w: World)
    requires Inv(c, w) && w.rx.YSend?
    ensures Inv(c, StepRx(c, w))
  {
    hide NtbRing.Inv, NtbRing.Typed, Channel.Inv, Channel.Typed, Channel.Extend, LastInv, Sub, InTx,
         WriterInv, ReaderInv, ReadInv;
    var k, n := w.rx.k, w.conns[w.rx.k];
    assert Local(c, k, n, w.link, w.tx, w.rx);
    var inp' := Channel.Extend(c.pipe, n.inp, Channel.Sender);
    Channel.SenderStep(c.pipe, n.inp);
    ReaderSees(c, n, inp');
    RxTurnKeepsInv(c, w, k, n.(inp := inp'), if inp'.m.snd.SIdle? then YDone else w.rx, w.last);
  }

  lemma StepKeepsInv(c: Config, w: World, l: Label)
    requires Inv(c, w)
    ensures Inv(c, Step(c, w, l))
  {
    hide NtbRing.Inv, NtbRing.Typed, TypedConn, Local, ProxyInv, LastInv, LinkKeys, StepWriter, StepReader;
    match l
    case Write(_, _) => CallKeepsInv(c, w, l);
    case WriterStep(k) => if k in w.conns { WriterKeepsInv(c, w, k); }
    case TxStep(k) =>
      match w.tx {
        case XIdle => if k in w.conns { TxIdleKeepsInv(c, w, k); }
        case XServe(_) => TxServeKeepsInv(c, w);
        case XEnqueue(_) => TxEnqueueKeepsInv(c, w);
        case XFree(_) => TxFreeKeepsInv(c, w);
      }
    case RxStep =>
      if w.rx.YSend? {
        RxSendKeepsInv(c, w);
      } else if w.rx.YPoll? && w.link.m.rcv.QHold? {
        RxFileKeepsInv(c, w);
      } else {
        RxLinkKeepsInv(c, w);
      }
    case DeliverSlot => DeliveryKeepsInv(c, w, NtbRing.DeliverSlot);
    case DeliverIndex => DeliveryKeepsInv(c, w, NtbRing.DeliverIndex);
    case Read(_, _) => CallKeepsInv(c, w, l);
    case ReaderStep(k) => if k in w.conns { ReaderKeepsInv(c, w, k); }
  }

  // ---------- whole runs ----------

  ghost predicate InitConn(c: Config, n: Conn) {
    && Channel.Init(c.pipe, n.out.m) && n.out.g == Channel.NewLog(c.pipe)
    && Channel.Init(c.pipe, n.inp.m) && n.inp.g == Channel.NewLog(c.pipe)
    && n.wr == WIdle && n.rd == DIdle([]) && n.cache == [] && n.calls == Calls([], 0, [])
  }

  ghost predicate Init(c: Config, w: World) {
    && c.Valid() && w.conns.Keys == c.keys
    && (forall k :: k in w.conns ==> InitConn(c, w.conns[k]))
    && NtbRing.Init(c.link, w.link.m) && w.link.g == NtbRing.EMPTY_LOG
    && w.tx == XIdle && w.rx == YPoll && w.last == Last(0, 0, None)
  }

  lemma InitConnIsInv(c: Config, n: Conn)
    requires c.Valid() && InitConn(c, n)
    ensures TypedConn(c, n) && ConnInv(c, n)
  {
    hide Channel.Inv, Channel.Typed;
    Channel.InitIsInv(c.pipe, n.out.m);
    Channel.InitIsInv(c.pipe, n.inp.m);
    Channel.TypedFromInv(c.pipe, n.out.m, n.out.g);
    Channel.TypedFromInv(c.pipe, n.inp.m, n.inp.g);
  }

  lemma InitIsInv(c: Config, w: World)
    requires Init(c, w)
    ensures Inv(c, w)
  {
    hide NtbRing.Inv, ConnInv, TypedConn;
    NtbRing.InitIsInv(c.link, w.link.m);
    forall k | k in w.conns
      ensures TypedConn(c, w.conns[k]) && Local(c, k, w.conns[k], w.link, w.tx, w.rx)
    {
      InitConnIsInv(c, w.conns[k]);
    }
  }

  ghost function Run(c: Config, w0: World, schedule: seq<Label>): (w: World)
    requires Inv(c, w0)
    ensures Inv(c, w)
  {
    if schedule == [] then w0
    else
      var w, l := Run(c, w0, schedule[..|schedule| - 1]), schedule[|schedule| - 1];
      StepKeepsInv(c, w, l);
      Step(c, w, l)
  }

  /** Everything between a connection's writes and its reads, in stream order. */
  function InTransit(w: World, k: Key): Bytes
    requires k in w.conns && |w.link.g.taken| <= |w.link.g.sent|
    requires |w.conns[k].inp.g.received| <= |w.conns[k].inp.g.sent|
    requires |w.conns[k].out.g.received| <= |w.conns[k].out.g.sent|
  {
    var n := w.conns[k];
    InReader(n.rd, n.inp.m.rcv, n.cache)                                // reader and leftover cache
    + Concat(n.inp.g.sent[|n.inp.g.received|..])                        // receive ring
    + Concat(Channel.Pending(n.inp.m.snd) + InRx(k, w.link.m.rcv, w.rx))  // receive proxy
    + Concat(Sub(k, w.link.g.sent[|w.link.g.taken|..]))                 // NTB ring and bridge
    + Concat(InTx(k, n.out.m.rcv, w.link.m.snd, w.tx))                  // send proxy
    + Concat(n.out.g.sent[|n.out.g.received|..])                        // send ring
    + Concat(Channel.Pending(n.out.m.snd)) + Uncut(n.wr)                // writer
  }

  /** What was given to writes on a connection is what reads returned followed by what is in transit. */
  predicate Conserves(w: World, k: Key) {
    && k in w.conns
    && w.link.g.taken <= w.link.g.sent
    && w.conns[k].inp.g.received <= w.conns[k].inp.g.sent
    && w.conns[k].out.g.received <= w.conns[k].out.g.sent
    && w.conns[k].calls.written == Returned(w.conns[k].calls.done) + InTransit(w, k)
  }

  lemma InvBounds(c: Config, w: World, k: Key)
    requires Inv(c, w) && k in w.conns
    ensures w.link.g.taken <= w.link.g.sent
    ensures Local(c, k, w.conns[k], w.link, w.tx, w.rx)
    ensures w.conns[k].inp.g.received <= w.conns[k].inp.g.sent
    ensures w.conns[k].out.g.received <= w.conns[k].out.g.sent
  {
    hide NtbRing.Inv, Channel.Inv, ProxyInv, Flow, Served, WriterInv, ReaderInv, ReadInv;
    NtbRing.TypedFromInv(c.link, w.link.m, w.link.g);
    assert Local(c, k, w.conns[k], w.link, w.tx, w.rx);
    Channel.ReceivedIsPrefix(c.pipe, w.conns[k].inp);
    Channel.ReceivedIsPrefix(c.pipe, w.conns[k].out);
  }

  lemma Conserved(c: Config, w: World, k: Key)
    requires Inv(c, w) && k in w.conns
    ensures Conserves(w, k)
  {
    hide NtbRing.Inv, Channel.Inv, ProxyInv, Served, ReaderInv, AskedInv, InTx, InRx, InReader, Sub, Concat, Typed,
         LastInv, LinkKeys, Returned;
    InvBounds(c, w, k);
    var n, sent, taken := w.conns[k], w.link.g.sent, w.link.g.taken;
    var tx, rx := InTx(k, n.out.m.rcv, w.link.m.snd, w.tx), InRx(k, w.link.m.rcv, w.rx);
    CutInTwo(n.out.g.sent, n.out.g.received);
    ConcatSplit(n.out.g.sent, Channel.Pending(n.out.m.snd));
    ConcatSplit(Sub(k, sent), tx);
    SubSplit(k, sent, |taken|);
    assert sent[..|taken|] == taken;
    ConcatSplit(Sub(k, taken), Sub(k, sent[|taken|..]));
    Regroup(n.inp.g.sent, Channel.Pending(n.inp.m.snd), rx);
    ConcatSplit(n.inp.g.sent, Channel.Pending(n.inp.m.snd) + rx);
    CutInTwo(n.inp.g.sent, n.inp.g.received);
  }

  lemma CutInTwo(sent: seq<Bytes>, received: seq<Bytes>)
    requires received <= sent
    ensures Concat(sent) == Concat(received) + Concat(sent[|received|..])
  {
    assert sent == received + sent[|received|..];
    ConcatSplit(received, sent[|received|..]);
  }

  /**
   * End-to-end conservation: in every run, on every connection, the data of all writes is what
   * the reads returned followed by what is in transit.  So reads deliver a prefix of the writes,
   * and each returns at least one byte and no more than it asked for.
   */
  lemma ReadsArePrefixOfWrites(c: Config, w0: World, schedule: seq<Label>, k: Key)
    requires Init(c, w0) && k in c.keys
    ensures Inv(c, w0)
    ensures var w := Run(c, w0, schedule);
            && Conserves(w, k)
            && Returned(w.conns[k].calls.done) <= w.conns[k].calls.written
            && (forall g :: g in w.conns[k].calls.done ==> 0 < |g.data| <= g.n)
  {
    hide Inv, Init, InTransit;
    InitIsInv(c, w0);
    KeysStay(c, w0, schedule);
    Conserved(c, Run(c, w0, schedule), k);
    ReadsAreBounded(c, Run(c, w0, schedule), k);
  }

  lemma ReadsAreBounded(c: Config, w: World, k: Key)
    requires Inv(c, w) && k in w.conns
    ensures forall g :: g in w.conns[k].calls.done ==> 0 < |g.data| <= g.n
  {
    hide NtbRing.Inv, Channel.Inv, ProxyInv, Flow, Served, WriterInv, ReaderInv, ReadInv, Typed, LastInv, LinkKeys;
    assert Local(c, k, w.conns[k], w.link, w.tx, w.rx);
  }

  lemma KeysStay(c: Config, w0: World, schedule: seq<Label>)
    requires Inv(c, w0)
    ensures Run(c, w0, schedule).conns.Keys == c.keys
  {
  }
}
