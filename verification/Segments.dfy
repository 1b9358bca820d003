/**
 * Cutting a byte stream into packets and putting it together again.
 */
module Segments {
  import opened Packets

  function Concat(ps: seq<Bytes>): Bytes {
    if ps == [] then [] else Concat(ps[..|ps| - 1]) + ps[|ps| - 1]
  }

  lemma ConcatMore(ps: seq<Bytes>, p: Bytes)
    ensures Concat(ps + [p]) == Concat(ps) + p
  {
    assert (ps + [p])[..|ps|] == ps;
  }

  lemma {:induction false} ConcatSplit(ps: seq<Bytes>, qs: seq<Bytes>)
    ensures Concat(ps + qs) == Concat(ps) + Concat(qs)
    decreases |qs|
  {
    if qs == [] {
      assert ps + qs == ps;
    } else {
      hide Concat;
      var rest, q := qs[..|qs| - 1], qs[|qs| - 1];
      ConcatSplit(ps, rest);
      assert ps + qs == (ps + rest) + [q] && qs == rest + [q];
      ConcatMore(ps + rest, q);
      ConcatMore(rest, q);
    }
  }

  lemma ConcatFirst(p: Bytes, ps: seq<Bytes>)
    ensures Concat([p] + ps) == p + Concat(ps)
  {
    ConcatSplit([p], ps);
    ConcatMore([], p);
    assert [] + [p] == [p];
  }

  /** The length of the next packet that `nts_write` makes of the bytes left. */
  function Chunk(max: nat, left: nat): (n: nat)
    requires max > 0
    ensures left > 0 ==> 0 < n <= left
  {
    if left <= max then left else max
  }

  /** The packets that one `nts_write` sends. */
  function Split(max: nat, data: Bytes): seq<Bytes>
    requires max > 0
  {
    if data == [] then [] else
      var n := Chunk(max, |data|);
      [data[..n]] + Split(max, data[n..])
  }

  /** A payload as the path carries it: never empty, never longer than a packet. */
  predicate Fits(max: nat, p: Bytes) { 0 < |p| <= max }

  predicate AllFit(max: nat, ps: seq<Bytes>) {
    forall i :: 0 <= i < |ps| ==> Fits(max, ps[i])
  }

  /** Nothing is lost or reordered, no packet is empty, and only the last may be short. */
  lemma {:induction false} SplitKeepsData(max: nat, data: Bytes)
    requires max > 0
    ensures var ps := Split(max, data);
            && Concat(ps) == data && AllFit(max, ps)
            && (forall i :: 0 <= i < |ps| - 1 ==> |ps[i]| == max)
            && (data != [] ==> ps != [])
    decreases |data|
  {
    if data != [] {
      hide Concat;
      var n := Chunk(max, |data|);
      SplitKeepsData(max, data[n..]);
      ConcatFirst(data[..n], Split(max, data[n..]));
      assert data == data[..n] + data[n..];
    }
  }

  /** How much of a payload `nts_read` copies into the space left, and whether it goes on. */
  datatype Absorbed = Absorbed(copied: nat, more: bool)

  function Absorb(max: nat, avail: nat, payload: Bytes): (a: Absorbed)
    ensures a.copied <= avail && a.copied <= |payload|
    ensures a.more ==> a.copied == |payload| < avail && |payload| >= max
    ensures !a.more ==> a.copied == avail || (a.copied == |payload| && |payload| < max)
  {
    if |payload| < max then
      if avail >= |payload| then Absorbed(|payload|, false) else Absorbed(avail, false)
    else if avail <= |payload| then Absorbed(avail, false)
    else Absorbed(|payload|, true)
  }
}
