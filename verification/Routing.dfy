/**
 * When what the handshake leaves in the two proxies' connection tables is what the data path needs:
 * that the name a proxy makes of an arriving packet leads to the connection it was sent on.  The
 * tables compare names as strings, so a name counts only up to its first zero byte.
 */
module Routing {
  import opened Packets
  import opened Handshake
  import opened Options
  import Channel
  import MaskRing
  import NtbRing
  import Overflow
  import Ports
  import Stream

  /** A connection as a proxy files it, with ports of 16 bits. */
  type Filed = k: ProxyConn | Fits(k) witness ProxyConn(0, 0, 0)

  predicate Fits(k: ProxyConn) { k.src < PORTS && k.dst < PORTS }

  predicate AllFit(st: State) {
    && (forall i :: 0 <= i < |st.s.proxy| ==> Fits(st.s.proxy[i]))
    && (forall i :: 0 <= i < |st.c.proxy| ==> Fits(st.c.proxy[i]))
  }

  /** The connection as packets that arrive from the other node name it. */
  function FromPeer(k: Filed): Stream.Key { Stream.Key(k.dst, k.src) }

  /** What the table sees of a connection's name. */
  function Name(k: Filed): seq<nat> { Text(Memory(ConnId(k.src, k.dst))) }

  /** `port2conn` after `ntp_create_conn_handler` has filed these connections. */
  function Table(conns: seq<Filed>): map<seq<nat>, Stream.Key> {
    if conns == [] then map[] else Table(conns[..|conns| - 1])[Name(conns[|conns| - 1]) := FromPeer(conns[|conns| - 1])]
  }

  /** What a search for each name, given as a number, comes to. */
  function Lookups(conns: seq<Filed>): map<nat, Stream.Key> {
    map id | id in (set i | 0 <= i < |conns| :: ConnId(conns[i].src, conns[i].dst)) && Text(Memory(id)) in Table(conns)
      :: Table(conns)[Text(Memory(id))]
  }

  /** The connections of a partition, as packets from the other node name them. */
  function Keys(conns: seq<Filed>, part: nat): set<Stream.Key> {
    set i | 0 <= i < |conns| && conns[i].part == part :: FromPeer(conns[i])
  }

  predicate Clash(k: Filed, k': Filed) { Collide(k.src, k.dst, k'.src, k'.dst) }

  predicate NoTwoAlike(conns: seq<Filed>) {
    forall i, j :: 0 <= i < j < |conns| ==> FromPeer(conns[i]) != FromPeer(conns[j])
  }

  /** A filed connection is found if and only if none filed after it has a name that looks the same. */
  lemma {:induction false} TableFinds(conns: seq<Filed>, i: nat)
    requires i < |conns| && NoTwoAlike(conns)
    ensures Name(conns[i]) in Table(conns)
    ensures Table(conns)[Name(conns[i])] == FromPeer(conns[i]) <==>
            forall j :: i < j < |conns| ==> !Clash(conns[i], conns[j])
    decreases |conns|
  {
    hide Name, Clash;
    var n := |conns| - 1;
    if i < n {
      var k := conns[n];
      TableFinds(conns[..n], i);
      NamesClash(conns[i], k);
      assert forall j :: i < j < n ==> conns[..n][j] == conns[j];
    }
  }

  lemma NamesClash(k: Filed, k': Filed)
    ensures Name(k) == Name(k') <==> Clash(k, k')
  {
    WhenNamesCollide(k.src, k.dst, k'.src, k'.dst);
  }

  lemma LookupsFind(conns: seq<Filed>, i: nat)
    requires i < |conns| && NoTwoAlike(conns)
    ensures var id := ConnId(conns[i].src, conns[i].dst);
            id in Lookups(conns) && Lookups(conns)[id] == Table(conns)[Name(conns[i])]
  {
    hide Table, Text, Memory;
    TableFinds(conns, i);
  }

  /** None of the first `n` connections, on this partition, looks like one filed after it. */
  predicate Clear(conns: seq<Filed>, n: nat, part: nat)
    requires n <= |conns|
  {
    forall i, j :: 0 <= i < n && conns[i].part == part && i < j < |conns| ==> !Clash(conns[i], conns[j])
  }

  /** The assumption of the data path, for the first `n` connections of a table. */
  lemma WhenTableRoutes(conns: seq<Filed>, n: nat, part: nat, max: nat, pipe: Channel.Config, link: NtbRing.Config)
    requires n <= |conns| && NoTwoAlike(conns) && max > 0 && pipe.Valid() && link.Valid()
    ensures Stream.Config(max, pipe, link, Keys(conns[..n], part), Lookups(conns)).Valid() <==>
            Stream.Key(0, 0) !in Keys(conns[..n], part) && Clear(conns, n, part)
  {
    hide Lookups, Table, Name, Clash;
    var keys := Keys(conns[..n], part);
    var c := Stream.Config(max, pipe, link, keys, Lookups(conns));
    forall i | 0 <= i < n && conns[i].part == part
      ensures var k := FromPeer(conns[i]);
              && k in keys && ConnId(k.dst, k.src) in Lookups(conns)
              && (Lookups(conns)[ConnId(k.dst, k.src)] == k <==>
                  forall j :: i < j < |conns| ==> !Clash(conns[i], conns[j]))
    {
      assert conns[..n][i] == conns[i];
      TableFinds(conns, i);
      LookupsFind(conns, i);
    }
    if Stream.Key(0, 0) !in keys && Clear(conns, n, part) {
      forall k | k in keys
        ensures ConnId(k.dst, k.src) in c.port2conn && c.port2conn[ConnId(k.dst, k.src)] == k
      {
        var i :| 0 <= i < n && conns[..n][i].part == part && FromPeer(conns[..n][i]) == k;
        assert conns[..n][i] == conns[i];
      }
    }
    if c.Valid() {
      forall i, j | 0 <= i < n && conns[i].part == part && i < j < |conns|
        ensures !Clash(conns[i], conns[j])
      {
        assert FromPeer(conns[i]) in keys;
      }
    }
  }

  /** What the proxies hold fits into 16 bits. */
  lemma PortsFit(cf: Config, schedule: seq<Label>)
    requires cf.Valid() && cf.ports <= PORTS
    ensures AllFit(Run(cf, schedule))
  {
    hide Run;
    var st := Run(cf, schedule);
    ProxiesMirror(cf, schedule);
    forall i | 0 <= i < |st.s.proxy|
      ensures Fits(st.s.proxy[i])
    {
      ProxyPortsExist(cf, schedule, i);
    }
    forall i | 0 <= i < |st.c.proxy|
      ensures Fits(st.c.proxy[i])
    {
      assert Fits(st.s.proxy[i]);
    }
  }

  /** The connections of a partition that are set up at both proxies, as the server's receiver names them. */
  function ToServer(st: State, part: nat): set<Stream.Key>
    requires AllFit(st) && |st.c.proxy| <= |st.s.proxy|
  {
    Keys(st.s.proxy[..|st.c.proxy|], part)
  }

  /** The same connections, as the client's receiver names them. */
  function ToClient(st: State, part: nat): set<Stream.Key>
    requires AllFit(st)
  {
    Keys(st.c.proxy, part)
  }

  /**
   * The data path's assumption on the receiving proxy's table, in both directions, in every run of
   * the handshake, for the connections set up at both proxies, on every partition: it holds exactly
   * if none of them has port 0 at both ends and none has a name that looks like a later one's.
   */
  lemma HandshakeRoutes(cf: Config, schedule: seq<Label>, part: nat, max: nat, pipe: Channel.Config,
                        link: NtbRing.Config)
    requires cf.Valid() && cf.ports <= PORTS && max > 0 && pipe.Valid() && link.Valid()
    ensures var st := Run(cf, schedule);
            var n := |st.c.proxy|;
            && AllFit(st) && n <= |st.s.proxy|
            && (forall k :: k in ToServer(st, part) <==> Stream.Key(k.dst, k.src) in ToClient(st, part))
            && (Stream.Config(max, pipe, link, ToServer(st, part), Lookups(st.s.proxy)).Valid() <==>
                Stream.Key(0, 0) !in ToServer(st, part) && Clear(st.s.proxy, n, part))
            && (Stream.Config(max, pipe, link, ToClient(st, part), Lookups(st.c.proxy)).Valid() <==>
                Stream.Key(0, 0) !in ToClient(st, part) && Clear(st.c.proxy, n, part))
            && (0 !in st.s.listeners ==> Stream.Key(0, 0) !in ToServer(st, part))
  {
    hide Run, Lookups, Clear;
    var st := Run(cf, schedule);
    PortsFit(cf, schedule);
    ProxiesMirror(cf, schedule);
    var n := |st.c.proxy|;
    var s: seq<Filed>, c: seq<Filed> := st.s.proxy, st.c.proxy;
    assert c[..n] == c;
    assert NoTwoAlike(s) && NoTwoAlike(c);
    WhenTableRoutes(s, n, part, max, pipe, link);
    WhenTableRoutes(c, n, part, max, pipe, link);
    Mirrored(c, s, part);
    if 0 !in st.s.listeners && Stream.Key(0, 0) in Keys(s[..n], part) {
      var i :| 0 <= i < n && s[..n][i].part == part && FromPeer(s[..n][i]) == Stream.Key(0, 0);
      ProxyPortsExist(cf, schedule, i);
    }
  }

  /**
   * What looks the same, in terms of the ports: at the server's proxy, two clients on multiples of
   * 256; at the client's proxy, also any two connections to one listener below 256, and any two to
   * listeners on multiples of 256.
   */
  lemma WhenConnectionsClash(cf: Config, schedule: seq<Label>, i: nat, j: nat)
    requires cf.Valid() && cf.ports <= PORTS && i < j
    ensures var st := Run(cf, schedule);
            && AllFit(st)
            && (j < |st.s.proxy| ==>
                  (Clash(st.s.proxy[i], st.s.proxy[j]) <==>
                   st.s.proxy[i].dst % 0x100 == 0 && st.s.proxy[j].dst % 0x100 == 0))
            && (j < |st.c.proxy| ==>
                  var (k, k') := (st.c.proxy[i], st.c.proxy[j]);
                  (Clash(k, k') <==>
                   || (k.dst % 0x100 == 0 && k'.dst % 0x100 == 0)
                   || (k.dst == k'.dst && (k.dst < 0x100 || (k.src % 0x100 == 0 && k'.src % 0x100 == 0)))))
  {
    hide Run;
    PortsFit(cf, schedule);
    ProxiesMirror(cf, schedule);
  }

  /** A listener on port 0 and the first client, which gets port 0: a connection with port 0 at both ends. */
  lemma ZeroAtBothEnds(cf: Config) returns (p: seq<Label>)
    requires cf.Valid() && 0 < cf.ports <= PORTS
    ensures var st := Run(cf, p);
            AllFit(st) && |st.c.proxy| <= |st.s.proxy| && Quiet(st) && Stream.Key(0, 0) in ToServer(st, 0)
  {
    p := [];
    var st := Run(cf, p);
    assert Overflow.FirstUsed(st.c.ports, 0, cf.ports);
    hide Run, Ports.Allocate;
    Overflow.NextPort(st.c.ports, 0, cf.ports);
    p := Extend(cf, p, Listen(0, 2));
    p := Overflow.ConnectOne(cf, p, 0, 0);
    PortsFit(cf, p);
    var s: seq<Filed> := Run(cf, p).s.proxy;
    var zero := 0;
    assert s[..1][zero] == ProxyConn(0, 0, 0) && FromPeer(s[..1][zero]) == Stream.Key(0, 0);
  }

  /** The first packet of such a connection is not looked up: whatever connection is there before it is taken. */
  lemma NotLookedUp(c: Stream.Config, there: Option<Stream.Key>, payload: Bytes)
    ensures Stream.Lookup(c, Stream.Last(0, 0, there), Packet(0, 0, payload)).conn == there
  {
  }

  lemma Mirrored(c: seq<Filed>, s: seq<Filed>, part: nat)
    requires |c| <= |s| && forall i :: 0 <= i < |c| ==> s[i] == ProxyConn(c[i].dst, c[i].src, c[i].part)
    ensures forall k :: k in Keys(s[..|c|], part) <==> Stream.Key(k.dst, k.src) in Keys(c, part)
  {
    var n := |c|;
    forall k: Stream.Key
      ensures k in Keys(s[..n], part) <==> Stream.Key(k.dst, k.src) in Keys(c, part)
    {
      if k in Keys(s[..n], part) {
        var i :| 0 <= i < n && s[..n][i].part == part && FromPeer(s[..n][i]) == k;
        assert FromPeer(c[i]) == Stream.Key(k.dst, k.src);
      }
      if Stream.Key(k.dst, k.src) in Keys(c, part) {
        var i :| 0 <= i < n && c[i].part == part && FromPeer(c[i]) == Stream.Key(k.dst, k.src);
        assert FromPeer(s[..n][i]) == k;
      }
    }
  }
}
