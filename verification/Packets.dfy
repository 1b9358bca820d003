/**
 * The packet format shared by the library and the proxies, and the naming of connections.
 */
module Packets {

  newtype Byte = b: int | 0 <= b < 0x100

  type Bytes = seq<Byte>

  /** Four 16-bit fields. */
  const HEADER_LEN: nat := 8

  const PORTS: nat := 0x1_0000

  type Port = p: nat | p < PORTS

  /** A data packet: the ports of the sending side and the payload. */
  datatype Packet = Packet(src: Port, dst: Port, payload: Bytes) {
    function MsgLen(): nat { HEADER_LEN + |payload| }
  }

  /** `create_conn_id`: the name under which a proxy files a connection. */
  function ConnId(src: Port, dst: Port): (id: nat)
    ensures id < PORTS * PORTS
  {
    src * PORTS + dst
  }

  /** The sending proxy recovers the ports from the name by shifting and truncating. */
  lemma ConnIdSplits(src: Port, dst: Port)
    ensures ConnId(src, dst) / PORTS == src && ConnId(src, dst) % PORTS == dst
  {
  }

  /** Connections with different ports have different names, seen from either side. */
  lemma ConnIdInjective(src: Port, dst: Port, src': Port, dst': Port)
    ensures ConnId(src, dst) == ConnId(src', dst') <==> src == src' && dst == dst'
    ensures ConnId(src, dst) == ConnId(src', dst') <==> ConnId(dst, src) == ConnId(dst', src')
  {
    ConnIdSplits(src, dst);
    ConnIdSplits(src', dst');
  }

  // ---------- numbers as keys of the default hash map ----------

  /** The four bytes of a number as they lie in memory, the lowest first. */
  function Memory(n: nat): seq<nat>
    requires n < PORTS * PORTS
  {
    [n % 0x100, n / 0x100 % 0x100, n / PORTS % 0x100, n / PORTS / 0x100]
  }

  /** What a comparison of strings sees: the bytes before the first zero. */
  function Text(bytes: seq<nat>): (t: seq<nat>)
    ensures t <= bytes
  {
    if bytes == [] || bytes[0] == 0 then [] else [bytes[0]] + Text(bytes[1..])
  }

  /** The bytes agree, or do so up to where both have a zero. */
  predicate SameUpToZero(a: seq<nat>, b: seq<nat>)
    requires |a| == |b|
  {
    a == [] || (a[0] == b[0] && (a[0] == 0 || SameUpToZero(a[1..], b[1..])))
  }

  lemma {:induction false} SameText(a: seq<nat>, b: seq<nat>)
    requires |a| == |b|
    ensures Text(a) == Text(b) <==> SameUpToZero(a, b)
    decreases |a|
  {
    if a != [] && a[0] != 0 && b[0] != 0 {
      SameText(a[1..], b[1..]);
      assert Text(a)[0] == a[0] && Text(b)[0] == b[0];
      assert Text(a)[1..] == Text(a[1..]) && Text(b)[1..] == Text(b[1..]);
    }
  }

  lemma MemoryOfName(src: Port, dst: Port)
    ensures Memory(ConnId(src, dst)) == [dst % 0x100, dst / 0x100, src % 0x100, src / 0x100]
  {
    ConnIdSplits(src, dst);
    LowByte(0x100 * src + dst / 0x100, dst % 0x100);
    LowByte(src, dst / 0x100);
  }

  lemma LowByte(q: nat, r: nat)
    requires r < 0x100
    ensures (0x100 * q + r) / 0x100 == q && (0x100 * q + r) % 0x100 == r
  {
  }

  /** Which port pairs have names that the map takes for the same. */
  predicate Collide(src: Port, dst: Port, src': Port, dst': Port) {
    || (src == src' && dst == dst')
    || (dst % 0x100 == 0 && dst' % 0x100 == 0)
    || (dst == dst' && (dst < 0x100 || (src % 0x100 == 0 && src' % 0x100 == 0)))
  }

  lemma WhenNamesCollide(src: Port, dst: Port, src': Port, dst': Port)
    ensures Text(Memory(ConnId(src, dst))) == Text(Memory(ConnId(src', dst'))) <==> Collide(src, dst, src', dst')
  {
    MemoryOfName(src, dst);
    MemoryOfName(src', dst');
    var a, b := Memory(ConnId(src, dst)), Memory(ConnId(src', dst'));
    TextOfFour(a, b);
  }

  lemma TextOfFour(a: seq<nat>, b: seq<nat>)
    requires |a| == |b| == 4
    ensures Text(a) == Text(b) <==>
            || a == b || (a[0] == b[0] == 0)
            || (a[0] == b[0] && a[1] == b[1] == 0)
            || (a[0] == b[0] && a[1] == b[1] && a[2] == b[2] == 0)
  {
    SameText(a, b);
    UpToZeroFrom(a, b, 0);
    UpToZeroFrom(a, b, 1);
    UpToZeroFrom(a, b, 2);
    UpToZeroFrom(a, b, 3);
    assert a[0..] == a && b[0..] == b && SameUpToZero(a[4..], b[4..]);
    hide SameUpToZero;
    assert a == [a[0], a[1], a[2], a[3]] && b == [b[0], b[1], b[2], b[3]];
  }

  lemma UpToZeroFrom(a: seq<nat>, b: seq<nat>, i: nat)
    requires |a| == |b| && i < |a|
    ensures SameUpToZero(a[i..], b[i..]) <==> a[i] == b[i] && (a[i] == 0 || SameUpToZero(a[i + 1..], b[i + 1..]))
  {
    assert a[i..][1..] == a[i + 1..] && b[i..][1..] == b[i + 1..];
  }

  /** Ports and socket ids as keys: those that are multiples of 256 are all taken for the same. */
  lemma WhenPortsCollide(p: Port, q: Port)
    ensures Text(Memory(p)) == Text(Memory(q)) <==> p == q || (p % 0x100 == 0 && q % 0x100 == 0)
  {
    assert Memory(p) == [p % 0x100, p / 0x100, 0, 0] && Memory(q) == [q % 0x100, q / 0x100, 0, 0];
    TextOfFour(Memory(p), Memory(q));
  }
}
