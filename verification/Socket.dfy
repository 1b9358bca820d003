/**
 * `nts_write` and `nts_read` of one socket, as its application calls them: the loops that cut
 * data into packets and put packets together, and the cache for what a read leaves over.
 * The queues stand for everything that is sent, and everything that arrives before the call ends.
 */
module Socket {
  import opened Options
  import opened Packets
  import opened Segments

  datatype Msg = Data(p: Bytes) | Fin

  /** Data messages are as a writer makes them. */
  predicate Proper(max: nat, q: seq<Msg>) {
    forall i :: 0 <= i < |q| && q[i].Data? ==> Fits(max, q[i].p)
  }

  /** The bytes in front of the first FIN. */
  function Stream(q: seq<Msg>): Bytes {
    if q == [] || q[0].Fin? then [] else q[0].p + Stream(q[1..])
  }

  /** A read returns bytes, returns -1 on a FIN, or goes on waiting for a packet. */
  datatype Outcome = Returned(data: Bytes) | Closed(lost: Bytes) | Waiting(kept: Bytes)

  /** The outcome, the leftover, and how many messages were taken off the queue. */
  datatype Reading = Reading(out: Outcome, cache: Bytes, taken: nat)

  /** What a read with `avail` bytes of room does with the queue, having `buf` already. */
  function FromQueue(max: nat, avail: nat, buf: Bytes, q: seq<Msg>): (r: Reading)
    ensures r.taken <= |q|
    decreases |q|
  {
    if q == [] then Reading(Waiting(buf), [], 0)
    else if q[0].Fin? then Reading(Closed(buf), [], 0)
    else
      var a := Absorb(max, avail, q[0].p);
      if a.more then
        var r := FromQueue(max, avail - a.copied, buf + q[0].p, q[1..]);
        r.(taken := r.taken + 1)
      else Reading(Returned(buf + q[0].p[..a.copied]), q[0].p[a.copied..], 1)
  }

  function ReadSpec(max: nat, cache: Bytes, q: seq<Msg>, n: nat): (r: Reading)
    ensures r.taken <= |q|
  {
    if cache != [] then
      var i := Absorb(max, n, cache).copied;
      Reading(Returned(cache[..i]), cache[i..], 0)
    else FromQueue(max, n, [], q)
  }

  // ---------- what a read promises ----------

  lemma {:induction false} FromQueueIsStream(max: nat, avail: nat, buf: Bytes, q: seq<Msg>)
    requires max > 0 && avail > 0 && Proper(max, q)
    ensures var r := FromQueue(max, avail, buf, q);
            match r.out
            case Returned(d) =>
              && |buf| < |d| <= |buf| + avail && buf <= d && |r.cache| < max
              && r.taken > 0 && buf + Stream(q) == d + r.cache + Stream(q[r.taken..])
            case Closed(lost) => r.cache == [] && lost == buf + Stream(q)
            case Waiting(kept) => r.cache == [] && kept == buf + Stream(q) && r.taken == |q|
    decreases |q|
  {
    hide Stream;
    if q == [] || q[0].Fin? {
      StreamEnds(q);
    } else {
      var p, a, r := q[0].p, Absorb(max, avail, q[0].p), FromQueue(max, avail, buf, q);
      assert Fits(max, p);
      StreamGoesOn(q);
      CutAnywhere(buf, p, a.copied, Stream(q[1..]));
      if a.more {
        FromQueueIsStream(max, avail - a.copied, buf + p, q[1..]);
        assert q[1..][r.taken - 1..] == q[r.taken..];
      }
    }
  }

  lemma StreamEnds(q: seq<Msg>)
    requires q == [] || q[0].Fin?
    ensures forall buf: Bytes :: buf + Stream(q) == buf
  {
  }

  lemma StreamGoesOn(q: seq<Msg>)
    requires q != [] && q[0].Data?
    ensures Stream(q) == q[0].p + Stream(q[1..])
  {
  }

  lemma CutAnywhere(buf: Bytes, p: Bytes, i: nat, s: Bytes)
    requires i <= |p|
    ensures buf + (p + s) == (buf + p) + s == (buf + p[..i]) + p[i..] + s
  {
  }

  /**
   * A read that returns gives 1 to n of the next bytes and keeps the order of the rest; the
   * leftover is shorter than a full payload; reading from the cache takes no packet.
   */
  lemma ReadReturnsNextBytes(max: nat, cache: Bytes, q: seq<Msg>, n: nat)
    requires max > 0 && n > 0 && |cache| < max && Proper(max, q)
    ensures var r := ReadSpec(max, cache, q, n);
            && (r.out.Returned? ==>
                  && 0 < |r.out.data| <= n && |r.cache| < max
                  && cache + Stream(q) == r.out.data + r.cache + Stream(q[r.taken..])
                  && (cache != [] ==> r.taken == 0))
            && (!r.out.Returned? ==> cache == [] && r.cache == [])
  {
    if cache == [] {
      FromQueueIsStream(max, n, [], q);
    } else {
      var i := Absorb(max, n, cache).copied;
      assert cache == cache[..i] + cache[i..];
    }
  }

  /** The first `k` messages are packets filled to the brim, together short of what was asked. */
  predicate FullRun(max: nat, avail: int, q: seq<Msg>, k: nat)
    decreases k
  {
    if k == 0 then avail > 0
    else |q| > 0 && q[0].Data? && |q[0].p| == max && FullRun(max, avail - max, q[1..], k - 1)
  }

  lemma {:induction false} FullRunMeaning(max: nat, avail: int, q: seq<Msg>, k: nat)
    ensures FullRun(max, avail, q, k) <==>
            k <= |q| && k * max < avail && forall i :: 0 <= i < k ==> q[i].Data? && |q[i].p| == max
    decreases k
  {
    if k > 0 && |q| > 0 {
      FullRunMeaning(max, avail - max, q[1..], k - 1);
      assert k * max == (k - 1) * max + max;
      assert forall i :: 0 <= i < k && k <= |q| ==> (if i == 0 then q[i] == q[0] else q[i] == q[1..][i - 1]);
      assert forall i :: 0 <= i < k - 1 && k <= |q| ==> q[1..][i] == q[i + 1];
    }
  }

  lemma {:induction false} FullRunNeedsRoom(max: nat, avail: int, q: seq<Msg>, k: nat)
    requires FullRun(max, avail, q, k)
    ensures avail > 0
    decreases k
  {
    if k > 0 {
      FullRunNeedsRoom(max, avail - max, q[1..], k - 1);
    }
  }

  /**
   * When a read does not return: it keeps waiting exactly when all that ever arrives is full
   * packets and fewer bytes than asked for; it fails exactly when such packets are followed by
   * a FIN, and then those packets are lost to the reader.
   */
  lemma {:induction false} WhenFromQueueReturns(max: nat, avail: nat, buf: Bytes, q: seq<Msg>)
    requires max > 0 && avail > 0 && Proper(max, q)
    ensures var r := FromQueue(max, avail, buf, q);
            && (r.out.Waiting? <==> FullRun(max, avail, q, |q|))
            && (r.out.Closed? <==> exists k: nat :: k < |q| && FullRun(max, avail, q, k) && q[k].Fin?)
            && (r.out.Closed? ==> r.taken < |q| && FullRun(max, avail, q, r.taken) && q[r.taken].Fin?)
    decreases |q|
  {
    if q != [] && q[0].Fin? {
      var zero := 0;
      assert FullRun(max, avail, q, zero) && q[zero].Fin?;
    } else if q != [] {
      var p := q[0].p;
      assert Fits(max, p);
      var r := FromQueue(max, avail, buf, q);
      if |p| == max && max < avail {
        WhenFromQueueReturns(max, avail - max, buf + p, q[1..]);
        forall k: nat | k < |q| && FullRun(max, avail, q, k) && q[k].Fin?
          ensures r.out.Closed?
        {
          assert q[1..][k - 1] == q[k];
        }
        assert r.out.Closed? ==> q[r.taken] == q[1..][r.taken - 1];
      } else {
        forall k: nat | k > 0 && FullRun(max, avail, q, k)
          ensures false
        {
          FullRunNeedsRoom(max, avail - max, q[1..], k - 1);
        }
      }
    }
  }

  /** A full packet, then a FIN: a read of one byte more than the packet has fails and loses the packet. */
  lemma FinLosesPacket(max: nat, p: Bytes)
    requires max > 0 && |p| == max
    ensures ReadSpec(max, [], [Data(p), Fin], max + 1) == Reading(Closed(p), [], 1)
    ensures ReadSpec(max, [], [Data(p)], max + 1) == Reading(Waiting(p), [], 1)
  {
    assert [Data(p), Fin][1..] == [Fin] && [Data(p)][1..] == [];
    assert [] + p == p;
    FromNothing(max, 1, p, [Fin]);
    FromNothing(max, 1, p, []);
  }

  /** The data returned by reads of these sizes, until one does not return. */
  function Reads(max: nat, cache: Bytes, q: seq<Msg>, sizes: seq<nat>): (r: (seq<Bytes>, Bytes, seq<Msg>))
    decreases |sizes|
  {
    if sizes == [] then ([], cache, q)
    else
      var r := ReadSpec(max, cache, q, sizes[0]);
      if !r.out.Returned? then ([], cache, q)
      else
        var (ds, cache', q') := Reads(max, r.cache, q[r.taken..], sizes[1..]);
        ([r.out.data] + ds, cache', q')
  }

  lemma ProperTail(max: nat, q: seq<Msg>, n: nat)
    requires Proper(max, q) && n <= |q|
    ensures Proper(max, q[n..])
  {
  }

  lemma Regroup(d: Bytes, ds: Bytes, c: Bytes, s: Bytes, c0: Bytes, s0: Bytes)
    requires ds + c + s == c0 + s0
    ensures d + ds + c + s == d + c0 + s0
  {
    assert d + ds + c + s == d + (ds + c + s);
    assert d + c0 + s0 == d + (c0 + s0);
  }

  /** Whatever the sizes of the reads, together they return a prefix of the stream. */
  lemma {:induction false} ReadsConsumeStream(max: nat, cache: Bytes, q: seq<Msg>, sizes: seq<nat>)
    requires max > 0 && |cache| < max && Proper(max, q)
    requires forall i :: 0 <= i < |sizes| ==> sizes[i] > 0
    ensures var r := Reads(max, cache, q, sizes);
            Concat(r.0) + r.1 + Stream(r.2) == cache + Stream(q)
    decreases |sizes|
  {
    if sizes != [] {
      hide ReadSpec, Stream, Concat, Proper;
      var r := ReadSpec(max, cache, q, sizes[0]);
      ReadReturnsNextBytes(max, cache, q, sizes[0]);
      if r.out.Returned? {
        ProperTail(max, q, r.taken);
        ReadsConsumeStream(max, r.cache, q[r.taken..], sizes[1..]);
        var rest := Reads(max, r.cache, q[r.taken..], sizes[1..]);
        assert Reads(max, cache, q, sizes) == ([r.out.data] + rest.0, rest.1, rest.2);
        ConcatFirst(r.out.data, rest.0);
        Regroup(r.out.data, Concat(rest.0), rest.1, Stream(rest.2), r.cache, Stream(q[r.taken..]));
      }
    }
  }

  /** The packets of several writes, as they arrive. */
  function CutAll(max: nat, writes: seq<Bytes>): seq<Bytes>
    requires max > 0
  {
    if writes == [] then [] else CutAll(max, writes[..|writes| - 1]) + Split(max, writes[|writes| - 1])
  }

  function Arriving(ps: seq<Bytes>): (q: seq<Msg>)
    ensures |q| == |ps| && forall i :: 0 <= i < |ps| ==> q[i] == Data(ps[i])
  {
    seq(|ps|, i requires 0 <= i < |ps| => Data(ps[i]))
  }

  lemma {:induction false} PacketsKeepData(max: nat, writes: seq<Bytes>)
    requires max > 0
    ensures AllFit(max, CutAll(max, writes)) && Concat(CutAll(max, writes)) == Concat(writes)
  {
    if writes != [] {
      PacketsKeepData(max, writes[..|writes| - 1]);
      SplitKeepsData(max, writes[|writes| - 1]);
      ConcatSplit(CutAll(max, writes[..|writes| - 1]), Split(max, writes[|writes| - 1]));
    }
  }

  lemma {:induction false} ArrivingStream(ps: seq<Bytes>)
    ensures Stream(Arriving(ps)) == Concat(ps)
  {
    if ps != [] {
      ArrivingStream(ps[1..]);
      assert Arriving(ps)[1..] == Arriving(ps[1..]);
      ConcatFirst(ps[0], ps[1..]);
      assert [ps[0]] + ps[1..] == ps;
    }
  }

  /**
   * For every split of the data into writes and every sequence of read sizes, what the reads
   * return, followed by the cache and what is still queued, is what was written.
   */
  lemma AnyWritesAnyReads(max: nat, writes: seq<Bytes>, sizes: seq<nat>)
    requires max > 0 && forall i :: 0 <= i < |sizes| ==> sizes[i] > 0
    ensures var r := Reads(max, [], Arriving(CutAll(max, writes)), sizes);
            Concat(r.0) + r.1 + Stream(r.2) == Concat(writes)
  {
    PacketsKeepData(max, writes);
    ArrivingStream(CutAll(max, writes));
    ReadsConsumeStream(max, [], Arriving(CutAll(max, writes)), sizes);
  }

  // ---------- the calls ----------

  lemma SplitFrom(max: nat, data: Bytes, i: nat)
    requires max > 0 && i < |data|
    ensures var n := Chunk(max, |data| - i);
            Split(max, data[i..]) == [data[i..i + n]] + Split(max, data[i + n..])
  {
    var n := Chunk(max, |data| - i);
    assert data[i..][..n] == data[i..i + n] && data[i..][n..] == data[i + n..];
  }

  lemma Assoc(a: seq<Bytes>, x: Bytes, b: seq<Bytes>)
    ensures (a + [x]) + b == a + ([x] + b)
  {
  }

  lemma SplitEnd(max: nat, data: Bytes)
    requires max > 0
    ensures forall a: seq<Bytes> :: a + Split(max, data[|data|..]) == a
  {
  }

  lemma FromNothing(max: nat, avail: int, buf: Bytes, q: seq<Msg>)
    requires avail >= 0
    ensures q == [] ==> FromQueue(max, avail, buf, q) == Reading(Waiting(buf), [], 0)
    ensures q != [] && q[0].Fin? ==> FromQueue(max, avail, buf, q) == Reading(Closed(buf), [], 0)
  {
  }

  lemma FromPacket(max: nat, avail: nat, buf: Bytes, p: Bytes, q: seq<Msg>)
    ensures var a, r := Absorb(max, avail, p), FromQueue(max, avail, buf, [Data(p)] + q);
            if a.more then var r' := FromQueue(max, avail - |p|, buf + p, q); r == r'.(taken := r'.taken + 1)
            else r == Reading(Returned(buf + p[..a.copied]), p[a.copied..], 1)
  {
    assert ([Data(p)] + q)[1..] == q;
  }

  /** One byte further: the bytes moved so far never cover a byte still to be moved. */
  lemma MoveOne(b: Bytes, k: nat, i: nat)
    requires k + i < |b|
    ensures var s := b[k..k + i] + b[i..]; |s| == |b| && s[i := s[i + k]] == b[k..k + i + 1] + b[i + 1..]
  {
    var s := b[k..k + i] + b[i..];
    assert s[i + k] == b[i + k];
  }

  class NtSocket {
    const max: nat
    const ntpBuf: array<Byte>           // the leftover cache
    var ntpBuflen: nat
    var sent: seq<Bytes>               // packets pushed to the send ring
    var recvq: seq<Msg>                // the receive ring
    var freed: nat                     // receive blocks given back
    var established: bool

    ghost predicate Valid()
      reads this, ntpBuf
    {
      && max > 0 && ntpBuf.Length == max && ntpBuflen < max && Proper(max, recvq)
    }

    ghost function Cache(): Bytes
      requires Valid()
      reads this, ntpBuf
    {
      ntpBuf[..ntpBuflen]
    }

    constructor (max: nat)
      requires max > 0
      ensures Valid() && this.max == max && Cache() == [] && sent == [] && recvq == [] && established && freed == 0
    {
      this.max := max;
      ntpBuf := new Byte[max];
      ntpBuflen, sent, recvq, freed, established := 0, [], [], 0, true;
    }

    /**
     * `None` stands for -1.  On a socket that is not established the count is tested before it is
     * set, so the result depends on `stale`, whatever its variable holds by then.
     */
    method Write(data: Bytes, stale: nat) returns (written: Option<nat>)
      requires Valid() && |data| > 0
      modifies this`sent
      ensures Valid()
      ensures if established then written == Some(|data|) && sent == old(sent) + Split(max, data)
              else (written == if stale > 0 then Some(stale) else None) && sent == old(sent)
    {
      if !established {
        if stale > 0 {
          return Some(stale);
        }
        return None;
      }
      hide Split;
      var len := if |data| < max then |data| else max;
      SplitFrom(max, data, 0);
      assert data[0..] == data && data[0..len] == data[..len];
      Assoc(sent, data[..len], Split(max, data[len..]));
      sent := sent + [data[..len]];
      var bytes := len;
      while true
        invariant 0 < bytes <= |data|
        invariant sent + Split(max, data[bytes..]) == old(sent) + Split(max, data)
        decreases |data| - bytes
      {
        var next := if |data| - bytes <= max then |data| - bytes else max;
        if next <= 0 {
          break;
        }
        SplitFrom(max, data, bytes);
        Assoc(sent, data[bytes..bytes + next], Split(max, data[bytes + next..]));
        sent := sent + [data[bytes..bytes + next]];
        bytes := bytes + next;
      }
      SplitEnd(max, data);
      written := Some(bytes);
    }

    /** Moving the leftover to the front of its own buffer, byte by byte from the left. */
    method MoveDown(k: nat)
      requires Valid() && k <= ntpBuflen
      modifies this`ntpBuflen, ntpBuf
      ensures Valid() && Cache() == old(Cache())[k..]
    {
      var left := ntpBuflen - k;
      var i := 0;
      ghost var b := ntpBuf[..];
      while i < left
        invariant 0 <= i <= left && ntpBuf[..] == b[k..k + i] + b[i..]
      {
        MoveOne(b, k, i);
        ghost var before := ntpBuf[..];
        ntpBuf[i] := ntpBuf[i + k];
        assert ntpBuf[..] == before[i := before[i + k]];
        i := i + 1;
      }
      ntpBuflen := left;
      assert Cache() == b[k..k + left] == b[..k + left][k..];
    }

    method Read(n: nat) returns (out: Outcome)
      requires Valid() && n > 0
      modifies this`ntpBuflen, this`recvq, this`freed, this`established, ntpBuf
      ensures Valid()
      ensures !old(established) ==>
        out == Closed([]) && Cache() == old(Cache()) && recvq == old(recvq) && freed == old(freed) && !established
      ensures old(established) ==>
        var r := ReadSpec(max, old(Cache()), old(recvq), n);
        && out == r.out && Cache() == r.cache && recvq == old(recvq)[r.taken..]
        && freed == old(freed) + r.taken
        && established == !out.Closed?
    {
      hide FromQueue;
      if !established {
        return Closed([]);
      }
      FromNothing(max, n, [], recvq);
      if ntpBuflen > 0 {
        out := ReadCached(n);
        return;
      }
      if recvq == [] {
        return Waiting([]);
      }
      if recvq[0].Fin? {
        established := false;
        return Closed([]);
      }
      var payload := recvq[0].p;
      recvq := recvq[1..];
      assert [Data(payload)] + recvq == old(recvq);
      var avail, buf := n, [];
      while true
        invariant Valid() && ntpBuflen == 0 && avail > 0 && established
        invariant Fits(max, payload)
        invariant freed + 1 + |recvq| == old(freed) + |old(recvq)| && recvq == old(recvq)[freed + 1 - old(freed)..]
        invariant old(freed) <= freed
        invariant var r := FromQueue(max, avail, buf, [Data(payload)] + recvq);
                  FromQueue(max, n, [], old(recvq)) == r.(taken := r.taken + (freed - old(freed)))
        decreases |recvq|
      {
        FromPacket(max, avail, buf, payload, recvq);
        if |payload| < max || avail <= |payload| {
          out := Finish(payload, avail, buf);
          return;
        }
        buf := buf + payload;
        avail := avail - |payload|;
        freed := freed + 1;
        FromNothing(max, avail, buf, recvq);
        if recvq == [] {
          return Waiting(buf);
        }
        if recvq[0].Fin? {
          established := false;
          return Closed(buf);
        }
        assert [Data(recvq[0].p)] + recvq[1..] == recvq;
        payload := recvq[0].p;
        recvq := recvq[1..];
      }
    }

    /** The last packet of a read: what does not fit goes to the cache, and the block is freed. */
    method Finish(payload: Bytes, avail: nat, buf: Bytes) returns (out: Outcome)
      requires Valid() && ntpBuflen == 0 && avail > 0 && Fits(max, payload) && (|payload| < max || avail <= |payload|)
      modifies this`ntpBuflen, this`freed, ntpBuf
      ensures Valid() && freed == old(freed) + 1
      ensures var i := Absorb(max, avail, payload).copied;
              out == Returned(buf + payload[..i]) && Cache() == payload[i..]
    {
      if |payload| < max {
        if avail >= |payload| {
          freed := freed + 1;
          return Returned(buf + payload);
        }
        Keep(payload[avail..]);
        freed := freed + 1;
        return Returned(buf + payload[..avail]);
      }
      if avail < |payload| {
        Keep(payload[avail..]);
      }
      freed := freed + 1;
      return Returned(buf + payload[..avail]);
    }

    /** The leftover is always shorter than a packet, so a read of the cache ends in one round. */
    method ReadCached(n: nat) returns (out: Outcome)
      requires Valid() && n > 0 && ntpBuflen > 0
      modifies this`ntpBuflen, ntpBuf
      ensures Valid()
      ensures var r := ReadSpec(max, old(Cache()), recvq, n); out == r.out && Cache() == r.cache
    {
      if n >= ntpBuflen {
        out := Returned(ntpBuf[..ntpBuflen]);
        ntpBuflen := 0;
      } else {
        out := Returned(ntpBuf[..n]);
        MoveDown(n);
      }
    }

    /** Copying what is left of a packet into the cache. */
    method Keep(rest: Bytes)
      requires Valid() && |rest| < max
      modifies this`ntpBuflen, ntpBuf
      ensures Valid() && Cache() == rest
    {
      for i := 0 to |rest|
        invariant ntpBuf[..i] == rest[..i]
      {
        ntpBuf[i] := rest[i];
      }
      ntpBuflen := |rest|;
    }
  }
}
