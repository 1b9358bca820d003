/**
 * A message longer than one slot of the NTB data ring: a first slot with a header, slots of bare
 * data, and an end marker.  The receiver computes from the length alone where the marker will
 * land, waits for it, copies the payload in at most two pieces, and clears the slots' length fields.
 *
 * A ring is a flat byte array; `Rotate` reads it from a given byte on, wrapping at its end.
 */
module MultiSlot {
  import opened Options
  import opened Packets
  import opened RingIndex

  function Rotate(b: Bytes, s: nat): (r: Bytes)
    requires s <= |b|
    ensures |r| == |b|
  {
    b[s..] + b[..s]
  }

  /** Where byte `v` of the rotated ring lies. */
  function Addr(size: nat, s: nat, v: nat): nat {
    if s + v < size then s + v else s + v - size
  }

  function Splice(r: Bytes, v: nat, data: Bytes): (r': Bytes)
    requires v + |data| <= |r|
    ensures |r'| == |r|
  {
    r[..v] + data + r[v + |data|..]
  }

  lemma SpliceMore(r: Bytes, v: nat, a: Bytes, b: Bytes)
    requires v + |a| + |b| <= |r|
    ensures Splice(Splice(r, v, a), v + |a|, b) == Splice(r, v, a + b)
  {
  }

  /** A copy that does not run over the end of the ring, seen in the rotated ring. */
  lemma CopyInRotated(b: Bytes, s: nat, v: nat, data: Bytes)
    requires s < |b| && v + |data| <= |b| && v < |b|
    requires Addr(|b|, s, v) + |data| <= |b|
    requires s <= Addr(|b|, s, v) || Addr(|b|, s, v) + |data| <= s
    ensures Rotate(Splice(b, Addr(|b|, s, v), data), s) == Splice(Rotate(b, s), v, data)
  {
  }

  // ---------- what a message looks like ----------

  type Length = n: nat | n < 0x1_0000

  function Word(low: Byte, high: Byte): nat { low as nat + 0x100 * (high as nat) }

  /** Little-endian. */
  function U16(n: Length): (b: Bytes)
    ensures |b| == 2 && Word(b[0], b[1]) == n
  {
    [(n % 0x100) as Byte, (n / 0x100) as Byte]
  }

  /** The length field of the slot that starts at `o`. */
  function LengthAt(r: Bytes, o: nat): nat
    requires o + HEADER_LEN <= |r|
  {
    Word(r[o + 4], r[o + 5])
  }

  /** A length field of zero: nothing has arrived. */
  const NO_LENGTH: Bytes := [0, 0]

  /** The three fields of a first slot's header that the sender writes. */
  function Head(src: Port, dst: Port, n: Length): (h: Bytes)
    ensures |h| == 6
  {
    U16(src) + U16(dst) + U16(n)
  }

  /** The marker's header, with the type bits of ENF_MULTI. */
  function Marker(src: Port, dst: Port): (h: Bytes)
    ensures |h| == HEADER_LEN && LengthAt(h, 0) == HEADER_LEN
  {
    Head(src, dst, HEADER_LEN) + U16(0x3000)
  }

  /** Where slot `i` starts. */
  function Times(i: nat, slot: nat): nat {
    if i == 0 then 0 else Times(i - 1, slot) + slot
  }

  lemma {:induction false} TimesIsProduct(i: nat, slot: nat)
    ensures Times(i, slot) == i * slot
  {
    if i > 0 {
      TimesIsProduct(i - 1, slot);
      assert i * slot == (i - 1) * slot + slot;
    }
  }

  lemma {:induction false} TimesAdd(i: nat, j: nat, slot: nat)
    ensures Times(i + j, slot) == Times(i, slot) + Times(j, slot)
  {
    if j > 0 {
      TimesAdd(i, j - 1, slot);
    }
  }

  lemma TimesNext(i: nat, slot: nat)
    ensures Times(i + 1, slot) == Times(i, slot) + slot && Times(0, slot) == 0 && Times(1, slot) == slot
  {
  }

  /** Slots start in order. */
  lemma Below(i: nat, j: nat, slot: nat)
    requires slot > 0
    ensures i < j <==> Times(i, slot) < Times(j, slot)
    ensures i < j ==> Times(i, slot) + slot <= Times(j, slot)
  {
    if i < j {
      TimesAdd(i + 1, j - i - 1, slot);
    } else {
      TimesAdd(j, i - j, slot);
    }
  }

  /** How many slots a message takes, as the receiver computes it. */
  function SlotsOf(n: nat, slot: nat): nat
    requires slot > 0
  {
    (n + slot - 1) / slot
  }

  lemma SlotsCover(n: nat, slot: nat)
    requires slot > 0
    ensures Times(SlotsOf(n, slot), slot) >= n
    ensures n > 0 ==> SlotsOf(n, slot) > 0 && Times(SlotsOf(n, slot) - 1, slot) < n
  {
    var q := SlotsOf(n, slot);
    TimesIsProduct(q, slot);
    assert n + slot - 1 == q * slot + (n + slot - 1) % slot;
    if q > 0 {
      TimesNext(q - 1, slot);
    }
  }

  /** Only one number of slots covers a message without a slot to spare. */
  lemma SlotsUnique(n: nat, slot: nat, q: nat)
    requires slot > 0 && q > 0 && Times(q - 1, slot) < n <= Times(q, slot)
    ensures q == SlotsOf(n, slot)
  {
    hide Times, SlotsOf;
    var p := SlotsOf(n, slot);
    SlotsCover(n, slot);
    TimesNext(q - 1, slot);
    Below(p - 1, q, slot);
    Below(q - 1, p, slot);
  }

  predicate Fits(size: nat, slot: nat, payload: Bytes) {
    && slot > HEADER_LEN
    && HEADER_LEN + |payload| < 0x1_0000
    && Times(SlotsOf(HEADER_LEN + |payload|, slot), slot) + slot <= size
  }

  /** The ring, read from the first slot on, once the message and its marker are in it. */
  function Lay(r: Bytes, slot: nat, src: Port, dst: Port, payload: Bytes): (r': Bytes)
    requires Fits(|r|, slot, payload)
    ensures |r'| == |r|
  {
    var n := HEADER_LEN + |payload|;
    SlotsCover(n, slot);
    var first := Splice(r, 0, Head(src, dst, n));
    Splice(Splice(first, HEADER_LEN, payload), Times(SlotsOf(n, slot), slot), Marker(src, dst))
  }

  /** The payload that the receiver reads, or `None` while the marker is not there. */
  function Parse(r: Bytes, slot: nat): Option<Bytes>
    requires slot > HEADER_LEN && |r| >= HEADER_LEN
  {
    var n := LengthAt(r, 0);
    var end := Times(SlotsOf(n, slot), slot);
    if n < HEADER_LEN || end + HEADER_LEN > |r| || LengthAt(r, end) == 0 then None
    else
      SlotsCover(n, slot);
      Some(r[HEADER_LEN..n])
  }

  /** The receiver finds the marker where the sender put it and reads what was sent. */
  lemma ParseOfLay(r: Bytes, slot: nat, src: Port, dst: Port, payload: Bytes)
    requires Fits(|r|, slot, payload)
    ensures LengthAt(Lay(r, slot, src, dst, payload), 0) == HEADER_LEN + |payload|
    ensures Parse(Lay(r, slot, src, dst, payload), slot) == Some(payload)
  {
    var n := HEADER_LEN + |payload|;
    SlotsCover(n, slot);
    var end := Times(SlotsOf(n, slot), slot);
    var r1 := Splice(Splice(r, 0, Head(src, dst, n)), HEADER_LEN, payload);
    var r2 := Lay(r, slot, src, dst, payload);
    assert end >= n;
    assert r2[4] == r1[4] == Head(src, dst, n)[4] && r2[5] == r1[5] == Head(src, dst, n)[5];
    assert LengthAt(r2, end) == LengthAt(Marker(src, dst), 0);
    assert r2[HEADER_LEN..n] == r1[HEADER_LEN..n] == payload;
  }

  /** The fields of a first slot may be written in the order in which the sender does. */
  lemma FieldsMakeHead(b: Bytes, at: nat, src: Port, dst: Port, n: Length, body: Bytes)
    requires at + HEADER_LEN + |body| <= |b|
    ensures Splice(Splice(Splice(Splice(b, at, U16(src)), at + 2, U16(dst)), at + HEADER_LEN, body), at + 4, U16(n))
         == Splice(Splice(b, at, Head(src, dst, n)), at + HEADER_LEN, body)
  {
    SpliceMore(b, at, U16(src), U16(dst));
    var ports := U16(src) + U16(dst);
    SpliceMore(b, at, ports, U16(n));
    assert Head(src, dst, n) == ports + U16(n);
    SpliceSwap(Splice(b, at, ports), at + 4, U16(n), at + HEADER_LEN, body);
  }

  lemma SpliceSwap(b: Bytes, v: nat, x: Bytes, w: nat, y: Bytes)
    requires v + |x| <= w && w + |y| <= |b|
    ensures Splice(Splice(b, w, y), v, x) == Splice(Splice(b, v, x), w, y)
  {
  }

  // ---------- the two ends ----------

  /** One end's view of the ring: the shared bytes and this end's next slot. */
  class DataRing {
    const slot: nat
    const capacity: nat
    const bytes: array<Byte>
    var cur: nat

    ghost predicate Valid()
      reads this
    {
      slot > HEADER_LEN && cur < capacity && bytes.Length == Times(capacity, slot)
    }

    /** Where this end's next slot starts. */
    function Start(): (at: nat)
      requires Valid()
      reads this
      ensures at + slot <= bytes.Length
    {
      SlotStart(cur, capacity, slot);
      Times(cur, slot)
    }

    /** The ring read from this end's next slot on. */
    ghost function View(): (r: Bytes)
      requires Valid()
      reads this, bytes
      ensures |r| == bytes.Length
    {
      Rotate(bytes[..], Start())
    }

    constructor (slot: nat, capacity: nat, bytes: array<Byte>)
      requires slot > HEADER_LEN && capacity > 0 && bytes.Length == Times(capacity, slot)
      ensures Valid() && this.slot == slot && this.capacity == capacity && this.bytes == bytes && cur == 0
    {
      this.slot := slot;
      this.capacity := capacity;
      this.bytes := bytes;
      cur := 0;
    }

    /** `rte_memcpy` into the ring. */
    method Copy(at: nat, data: Bytes)
      requires at + |data| <= bytes.Length
      modifies bytes
      ensures bytes[..] == Splice(old(bytes[..]), at, data)
    {
      for i := 0 to |data|
        invariant forall k :: 0 <= k < i ==> bytes[at + k] == data[k]
        invariant forall k :: 0 <= k < at || at + i <= k < bytes.Length ==> bytes[k] == old(bytes[k])
      {
        bytes[at + i] := data[i];
      }
    }

    /** `ntb_data_msg_enqueue2` for a message longer than a slot; the type bits are not written. */
    method EnqueueFirst(src: Port, dst: Port, payload: Bytes)
      requires Valid() && slot - HEADER_LEN < |payload| && HEADER_LEN + |payload| < 0x1_0000
      modifies this, bytes
      ensures Valid() && cur == Wrap(old(cur), capacity)
      ensures bytes[..] == Splice(Splice(old(bytes[..]), old(Start()), Head(src, dst, HEADER_LEN + |payload|)),
                                  old(Start()) + HEADER_LEN, payload[..slot - HEADER_LEN])
    {
      hide Splice, U16, Head;
      var at := Start();
      var n := HEADER_LEN + |payload|;
      Copy(at, U16(src));
      Copy(at + 2, U16(dst));
      Copy(at + HEADER_LEN, payload[..slot - HEADER_LEN]);
      Copy(at + 4, U16(n));
      FieldsMakeHead(old(bytes[..]), at, src, dst, n, payload[..slot - HEADER_LEN]);
      cur := Wrap(cur, capacity);
    }

    /** `ntb_pure_data_msg_enqueue`, and `ntb_data_msg_enqueue` for a marker. */
    method EnqueueBare(data: Bytes)
      requires Valid() && |data| <= slot
      modifies this, bytes
      ensures Valid() && cur == Wrap(old(cur), capacity)
      ensures bytes[..] == Splice(old(bytes[..]), old(Start()), data)
    {
      Copy(Start(), data);
      cur := Wrap(cur, capacity);
    }

    /** The branch of `ntp_send_buff_data` for a message longer than a slot. */
    method SendMulti(src: Port, dst: Port, payload: Bytes)
      requires Valid() && slot - HEADER_LEN < |payload| && Fits(bytes.Length, slot, payload)
      modifies this, bytes
      ensures Valid()
      ensures Rotate(bytes[..], old(Start())) == Lay(old(View()), slot, src, dst, payload)
      ensures cur == Advance(old(cur), SlotsOf(HEADER_LEN + |payload|, slot) + 1, capacity)
    {
      hide Splice, Head, Rotate, Lay, Times, SlotsOf;
      ghost var c, r, n := cur, View(), HEADER_LEN + |payload|;
      ghost var head := Splice(r, 0, Head(src, dst, n));
      LayIs(r, slot, src, dst, payload);
      Room(slot, capacity, n);
      FirstInRotated(bytes[..], c, capacity, slot, Head(src, dst, n), payload[..slot - HEADER_LEN]);
      EnqueueFirst(src, dst, payload);
      TimesNext(0, slot);
      var sent := slot - HEADER_LEN;
      ghost var k := 1;
      while |payload| - sent > slot
        invariant Valid() && slot - HEADER_LEN <= sent < |payload|
        invariant Times(k, slot) == HEADER_LEN + sent && k < capacity && cur == Advance(c, k, capacity)
        invariant Rotate(bytes[..], Times(c, slot)) == Splice(head, HEADER_LEN, payload[..sent])
      {
        NextPiece(bytes[..], c, k, capacity, slot, head, payload, sent, slot);
        EnqueueBare(payload[sent..sent + slot]);
        TimesNext(k, slot);
        sent := sent + slot;
        k := k + 1;
        InRange(k, capacity, slot, n);
      }
      NextPiece(bytes[..], c, k, capacity, slot, head, payload, sent, |payload| - sent);
      EnqueueBare(payload[sent..]);
      assert payload[..|payload|] == payload;
      k := k + 1;
      LastPiece(k, slot, n);
      BareInRotated(bytes[..], c, k, capacity, slot, Marker(src, dst));
      EnqueueBare(Marker(src, dst));
    }

    /** The length field of slot `i`. */
    function LengthOf(i: nat): nat
      requires Valid() && i < capacity
      reads this, bytes
    {
      SlotStart(i, capacity, slot);
      Word(bytes[Times(i, slot) + 4], bytes[Times(i, slot) + 5])
    }

    /** The payload of a message of `len` bytes whose marker belongs in slot `next`, in one or two pieces. */
    method Gather(len: nat, next: nat) returns (payload: Bytes)
      requires Valid() && HEADER_LEN <= len && next == cur + SlotsOf(len, slot) && next - cur < capacity
      ensures len <= bytes.Length && payload == View()[HEADER_LEN..len]
    {
      ghost var b, s := bytes[..], Start();
      var at := Start();
      PiecesOf(cur, next, capacity, slot, len);
      if next <= capacity {
        payload := bytes[at + HEADER_LEN..at + len];
        assert payload == Rotate(b, s)[HEADER_LEN..len];
      } else {
        var first := Times(capacity - cur - 1, slot) + (slot - HEADER_LEN);
        payload := bytes[at + HEADER_LEN..at + HEADER_LEN + first] + bytes[..len - HEADER_LEN - first];
        assert payload == Rotate(b, s)[HEADER_LEN..len];
      }
    }

    /** Clears the length fields of `count` slots from this end's next slot on. */
    method ClearLengths(count: nat)
      requires Valid() && count <= capacity
      modifies bytes
      ensures Rotate(bytes[..], Start()) == Clear(old(View()), capacity, slot, count)
    {
      hide Splice, Rotate, Times, U16;
      ghost var r := View();
      var temp := cur;
      for i := 0 to count
        invariant temp < capacity && (temp == Advance(cur, i, capacity) || i == capacity)
        invariant Rotate(bytes[..], Start()) == Clear(r, capacity, slot, i)
      {
        FieldInRotated(bytes[..], cur, i, capacity, slot, NO_LENGTH);
        Copy(SlotOffset(temp, capacity, slot) + 4, NO_LENGTH);
        temp := Wrap(temp, capacity);
      }
    }

    /** The branch of `ntp_recv_data_to_buf` for such a message; `None` while it waits for the marker. */
    method ReceiveMulti() returns (payload: Option<Bytes>)
      requires Valid() && HEADER_LEN <= LengthOf(cur) && SlotsOf(LengthOf(cur), slot) < capacity
      modifies this, bytes
      ensures Valid() && payload == Parse(old(View()), slot)
      ensures payload.None? ==> bytes[..] == old(bytes[..]) && cur == old(cur)
      ensures payload.Some? ==>
                && cur == Advance(old(cur), old(SlotsOf(LengthOf(cur), slot)) + 1, capacity)
                && Rotate(bytes[..], old(Start()))
                == Clear(old(View()), capacity, slot, old(SlotsOf(LengthOf(cur), slot)) + 1)
    {
      hide Splice, Rotate, Times, SlotsOf, Clear, Word;
      var len := LengthOf(cur);
      var next := cur + SlotsOf(len, slot);
      var fin := if next < capacity then next else next - capacity;
      LengthInRotated(bytes[..], cur, 0, capacity, slot);
      LengthInRotated(bytes[..], cur, SlotsOf(len, slot), capacity, slot);
      TimesNext(0, slot);
      if LengthOf(fin) == 0 {
        return None;
      }
      var data := Gather(len, next);
      ClearLengths(next - cur + 1);
      cur := if next + 1 < capacity then next + 1 else next - capacity + 1;
      payload := Some(data);
    }
  }

  lemma SlotStart(i: nat, capacity: nat, slot: nat)
    requires i < capacity && slot > 0
    ensures Times(i, slot) + slot <= Times(capacity, slot) && Times(i + 1, slot) == Times(i, slot) + slot
  {
    Below(i, capacity, slot);
  }

  /** Slots follow one another in the rotated ring. */
  lemma SlotAddr(c: nat, k: nat, capacity: nat, slot: nat)
    requires c < capacity && k < capacity && slot > 0
    ensures Times(c, slot) < Times(capacity, slot) && Times(k, slot) + slot <= Times(capacity, slot)
    ensures Times(Advance(c, k, capacity), slot) == Addr(Times(capacity, slot), Times(c, slot), Times(k, slot))
    ensures || Times(c, slot) <= Times(Advance(c, k, capacity), slot)
            || Times(Advance(c, k, capacity), slot) + slot <= Times(c, slot)
  {
    SlotStart(c, capacity, slot);
    SlotStart(k, capacity, slot);
    TimesAdd(c, k, slot);
    if c + k >= capacity {
      TimesAdd(c + k - capacity, capacity, slot);
      Below(c + k - capacity, c, slot);
    } else {
      SlotStart(c + k, capacity, slot);
      Below(c, c + k, slot);
    }
  }

  /** A slot written by the sender, in the ring read from slot `c` on. */
  lemma BareInRotated(b: Bytes, c: nat, k: nat, capacity: nat, slot: nat, data: Bytes)
    requires c < capacity && k < capacity && slot > 0 && |b| == Times(capacity, slot) && |data| <= slot
    ensures Times(Advance(c, k, capacity), slot) + |data| <= |b|
    ensures Times(c, slot) <= |b| && Times(k, slot) + |data| <= |b|
    ensures Rotate(Splice(b, Times(Advance(c, k, capacity), slot), data), Times(c, slot))
         == Splice(Rotate(b, Times(c, slot)), Times(k, slot), data)
  {
    SlotAddr(c, k, capacity, slot);
    SlotStart(Advance(c, k, capacity), capacity, slot);
    CopyInRotated(b, Times(c, slot), Times(k, slot), data);
  }

  lemma FirstInRotated(b: Bytes, c: nat, capacity: nat, slot: nat, head: Bytes, body: Bytes)
    requires c < capacity && slot > HEADER_LEN && |b| == Times(capacity, slot)
    requires |head| <= HEADER_LEN && |body| == slot - HEADER_LEN
    ensures Times(c, slot) + slot <= |b|
    ensures Rotate(Splice(Splice(b, Times(c, slot), head), Times(c, slot) + HEADER_LEN, body), Times(c, slot))
         == Splice(Splice(Rotate(b, Times(c, slot)), 0, head), HEADER_LEN, body)
  {
    SlotStart(c, capacity, slot);
    CopyInRotated(b, Times(c, slot), 0, head);
    CopyInRotated(Splice(b, Times(c, slot), head), Times(c, slot), HEADER_LEN, body);
  }

  lemma NextPiece(b: Bytes, c: nat, k: nat, capacity: nat, slot: nat, head: Bytes, payload: Bytes, sent: nat, len: nat)
    requires c < capacity && k < capacity && slot > 0 && |b| == Times(capacity, slot) == |head|
    requires Times(k, slot) == HEADER_LEN + sent && len <= slot && sent + len <= |payload|
    requires HEADER_LEN + sent <= |head| && Times(c, slot) <= |b|
    requires Rotate(b, Times(c, slot)) == Splice(head, HEADER_LEN, payload[..sent])
    ensures Times(Advance(c, k, capacity), slot) + len <= |b| && HEADER_LEN + sent + len <= |head|
    ensures Rotate(Splice(b, Times(Advance(c, k, capacity), slot), payload[sent..sent + len]), Times(c, slot))
         == Splice(head, HEADER_LEN, payload[..sent + len])
  {
    hide Rotate;
    BareInRotated(b, c, k, capacity, slot, payload[sent..sent + len]);
    SpliceMore(head, HEADER_LEN, payload[..sent], payload[sent..sent + len]);
    assert payload[..sent] + payload[sent..sent + len] == payload[..sent + len];
  }

  lemma Room(slot: nat, capacity: nat, n: nat)
    requires slot > 0 && Times(SlotsOf(n, slot), slot) + slot <= Times(capacity, slot) && n > slot
    ensures 1 < SlotsOf(n, slot) < capacity
  {
    hide SlotsOf;
    SlotsCover(n, slot);
    TimesNext(0, slot);
    Below(1, SlotsOf(n, slot), slot);
    Below(SlotsOf(n, slot), capacity, slot);
  }

  lemma InRange(k: nat, capacity: nat, slot: nat, n: nat)
    requires slot > 0 && SlotsOf(n, slot) < capacity && Times(k, slot) < n
    ensures k < capacity
  {
    SlotsCover(n, slot);
    Below(k, SlotsOf(n, slot), slot);
  }

  /** The sender has filled exactly the slots that the receiver counts. */
  lemma LastPiece(k: nat, slot: nat, n: nat)
    requires slot > 0 && k > 0 && Times(k - 1, slot) < n <= Times(k - 1, slot) + slot
    ensures k == SlotsOf(n, slot)
  {
    assert Times(k - 1, slot) + slot == Times(k, slot);
    SlotsUnique(n, slot, k);
  }

  lemma LayIs(r: Bytes, slot: nat, src: Port, dst: Port, payload: Bytes)
    requires Fits(|r|, slot, payload)
    ensures var n := HEADER_LEN + |payload|;
            && n <= Times(SlotsOf(n, slot), slot)
            && Lay(r, slot, src, dst, payload) ==
               Splice(Splice(Splice(r, 0, Head(src, dst, n)), HEADER_LEN, payload),
                      Times(SlotsOf(n, slot), slot), Marker(src, dst))
  {
    SlotsCover(HEADER_LEN + |payload|, slot);
  }

  /** The slot `n` places on. */
  function Advance(i: nat, n: nat, capacity: nat): nat
    requires i < capacity
  {
    if i + n < capacity then i + n else i + n - capacity
  }

  function SlotOffset(i: nat, capacity: nat, slot: nat): (at: nat)
    requires i < capacity && slot > 0
    ensures at == Times(i, slot) && at + slot <= Times(capacity, slot)
  {
    SlotStart(i, capacity, slot);
    Times(i, slot)
  }

  /** The ring with the length fields of its first `n` slots zero. */
  function Clear(r: Bytes, capacity: nat, slot: nat, n: nat): (r': Bytes)
    requires slot > HEADER_LEN && |r| == Times(capacity, slot) && n <= capacity
    ensures |r'| == |r|
  {
    if n == 0 then r
    else Splice(Clear(r, capacity, slot, n - 1), SlotOffset(n - 1, capacity, slot) + 4, NO_LENGTH)
  }

  /** Where the pieces of a message end. */
  lemma PiecesOf(cur: nat, next: nat, capacity: nat, slot: nat, len: nat)
    requires slot > HEADER_LEN && cur < capacity && len >= HEADER_LEN
    requires next == cur + SlotsOf(len, slot) && next - cur < capacity
    ensures len <= Times(capacity, slot)
    ensures next <= capacity ==> Times(cur, slot) + len <= Times(capacity, slot)
    ensures next > capacity ==>
              && Times(cur, slot) + slot + Times(capacity - cur - 1, slot) == Times(capacity, slot)
              && Times(cur, slot) + len > Times(capacity, slot)
  {
    hide SlotsOf, Times;
    var n := SlotsOf(len, slot);
    SlotsCover(len, slot);
    Below(n, capacity, slot);
    TimesAdd(cur, n, slot);
    Below(next, capacity, slot);
    if next > capacity {
      TimesAdd(cur + 1, capacity - cur - 1, slot);
      TimesNext(cur, slot);
      TimesAdd(cur, n - 1, slot);
      Below(capacity, next, slot);
      Below(capacity, next - 1, slot);
    }
  }

  /** A length field, in the ring read from slot `c` on. */
  lemma LengthInRotated(b: Bytes, c: nat, k: nat, capacity: nat, slot: nat)
    requires c < capacity && k < capacity && slot > HEADER_LEN && |b| == Times(capacity, slot)
    ensures Times(c, slot) < |b| && Times(k, slot) + slot <= |b|
    ensures var at := SlotOffset(Advance(c, k, capacity), capacity, slot);
            LengthAt(Rotate(b, Times(c, slot)), Times(k, slot)) == Word(b[at + 4], b[at + 5])
  {
    hide Times;
    SlotAddr(c, k, capacity, slot);
    SlotStart(Advance(c, k, capacity), capacity, slot);
    var s, v := Times(c, slot), Times(k, slot);
    assert Rotate(b, s)[v + 4] == b[Addr(|b|, s, v) + 4];
    assert Rotate(b, s)[v + 5] == b[Addr(|b|, s, v) + 5];
  }

  lemma FieldInRotated(b: Bytes, c: nat, k: nat, capacity: nat, slot: nat, data: Bytes)
    requires c < capacity && k < capacity && slot > HEADER_LEN && |b| == Times(capacity, slot) && |data| == 2
    ensures Times(c, slot) <= |b| && Times(k, slot) + slot <= |b|
    ensures Rotate(Splice(b, SlotOffset(Advance(c, k, capacity), capacity, slot) + 4, data), Times(c, slot))
         == Splice(Rotate(b, Times(c, slot)), SlotOffset(k, capacity, slot) + 4, data)
  {
    hide Times, Splice, Rotate;
    SlotAddr(c, k, capacity, slot);
    SlotStart(Advance(c, k, capacity), capacity, slot);
    var s, v := Times(c, slot), Times(k, slot) + 4;
    assert Addr(|b|, s, v) == Times(Advance(c, k, capacity), slot) + 4;
    CopyInRotated(b, s, v, data);
  }

  // ---------- several messages in the ring ----------

  /** No slot looks as if a message had arrived in it. */
  ghost predicate Quiet(r: Bytes, capacity: nat, slot: nat)
    requires slot > HEADER_LEN && |r| == Times(capacity, slot)
  {
    forall k :: 0 <= k < capacity ==> LengthAt(r, SlotOffset(k, capacity, slot)) == 0
  }

  lemma {:induction false} ClearAt(r: Bytes, capacity: nat, slot: nat, n: nat, k: nat)
    requires slot > HEADER_LEN && |r| == Times(capacity, slot) && n <= capacity && k < capacity
    ensures LengthAt(Clear(r, capacity, slot, n), SlotOffset(k, capacity, slot))
         == if k < n then 0 else LengthAt(r, SlotOffset(k, capacity, slot))
    decreases n
  {
    hide Times, Splice, LengthAt;
    if n > 0 {
      ClearAt(r, capacity, slot, n - 1, k);
      Below(k, n - 1, slot);
      Below(n - 1, k, slot);
      var o, at := SlotOffset(n - 1, capacity, slot), SlotOffset(k, capacity, slot);
      ZeroField(Clear(r, capacity, slot, n - 1), o, at);
      if k == n - 1 {
        assert o == at;
      }
    }
  }

  lemma ZeroField(r: Bytes, o: nat, at: nat)
    requires o + HEADER_LEN <= |r| && at + HEADER_LEN <= |r|
    requires at == o || at + HEADER_LEN <= o || o + HEADER_LEN <= at
    ensures LengthAt(Splice(r, o + 4, NO_LENGTH), at) == if at == o then 0 else LengthAt(r, at)
  {
  }

  /** The slots of a message and its marker. */
  function Taken(m: Bytes, slot: nat): nat
    requires slot > 0
  {
    SlotsOf(HEADER_LEN + |m|, slot) + 1
  }

  function Total(ms: seq<Bytes>, slot: nat): nat
    requires slot > 0
  {
    if ms == [] then 0 else Taken(ms[0], slot) + Total(ms[1..], slot)
  }

  /** The slots begin with this message and its marker. */
  predicate Holds(r: Bytes, k: nat, slot: nat, m: Bytes)
    requires slot > HEADER_LEN && |r| == Times(k, slot)
  {
    && slot - HEADER_LEN < |m| && HEADER_LEN + |m| < 0x1_0000 && Taken(m, slot) <= k
    && HEADER_LEN + |m| <= |r| && LengthAt(r, 0) == HEADER_LEN + |m| && r[HEADER_LEN..HEADER_LEN + |m|] == m
    && LengthAt(r, SlotOffset(Taken(m, slot) - 1, k, slot)) != 0
  }

  /** These messages lie one behind the other in the slots, and the rest is quiet. */
  ghost predicate Queued(r: Bytes, k: nat, slot: nat, ms: seq<Bytes>)
    requires slot > HEADER_LEN && |r| == Times(k, slot)
    decreases |ms|
  {
    if ms == [] then Quiet(r, k, slot)
    else
      && Holds(r, k, slot, ms[0])
      && (Prefix(Taken(ms[0], slot), k, slot);
          Queued(r[Times(Taken(ms[0], slot), slot)..], k - Taken(ms[0], slot), slot, ms[1..]))
  }

  lemma Prefix(n: nat, k: nat, slot: nat)
    requires n <= k
    ensures Times(n, slot) <= Times(k, slot) && Times(k, slot) - Times(n, slot) == Times(k - n, slot)
  {
    TimesAdd(n, k - n, slot);
  }

  /** Whether slots begin with a message is told by the slots it takes. */
  lemma HoldsPrefix(r: Bytes, k: nat, r': Bytes, k': nat, slot: nat, m: Bytes)
    requires slot > HEADER_LEN && |r| == Times(k, slot) && |r'| == Times(k', slot)
    requires Holds(r, k, slot, m) && Taken(m, slot) <= k'
    requires Times(Taken(m, slot), slot) <= |r| && Times(Taken(m, slot), slot) <= |r'|
    requires r[..Times(Taken(m, slot), slot)] == r'[..Times(Taken(m, slot), slot)]
    ensures Holds(r', k', slot, m)
  {
    hide Times, SlotsOf;
    var n := Taken(m, slot);
    var len, p, p' := HEADER_LEN + |m|, r[..Times(n, slot)], r'[..Times(n, slot)];
    SlotsCover(len, slot);
    TimesNext(n - 1, slot);
    SlotStart(n - 1, k, slot);
    SlotStart(n - 1, k', slot);
    assert r'[HEADER_LEN..len] == p'[HEADER_LEN..len] == p[HEADER_LEN..len] == m;
    var o := Times(n - 1, slot);
    assert r'[4] == p'[4] == p[4] == r[4] && r'[5] == p'[5] == p[5] == r[5];
    assert r'[o + 4] == p'[o + 4] == p[o + 4] == r[o + 4] && r'[o + 5] == p'[o + 5] == p[o + 5] == r[o + 5];
  }

  lemma QuietJoin(r: Bytes, k: nat, z: Bytes, j: nat, slot: nat)
    requires slot > HEADER_LEN && |r| == Times(k, slot) && |z| == Times(j, slot)
    requires Quiet(r, k, slot) && Quiet(z, j, slot)
    ensures |r + z| == Times(k + j, slot) && Quiet(r + z, k + j, slot)
  {
    hide Times;
    TimesAdd(k, j, slot);
    var rz, sum := r + z, k + j;
    forall i | 0 <= i < sum
      ensures LengthAt(rz, SlotOffset(i, sum, slot)) == 0
    {
      if i < k {
        assert LengthAt(r, SlotOffset(i, k, slot)) == 0;
      } else {
        TimesAdd(k, i - k, slot);
        assert LengthAt(z, SlotOffset(i - k, j, slot)) == 0;
      }
    }
  }

  lemma QuietPart(r: Bytes, k: nat, slot: nat, n: nat)
    requires slot > HEADER_LEN && |r| == Times(k, slot) && n <= k && Quiet(r, k, slot)
    ensures Times(n, slot) <= |r| && |r| - Times(n, slot) == Times(k - n, slot)
    ensures Quiet(r[Times(n, slot)..], k - n, slot)
  {
    hide Times;
    Prefix(n, k, slot);
    var part, left := r[Times(n, slot)..], k - n;
    forall i | 0 <= i < left
      ensures LengthAt(part, SlotOffset(i, left, slot)) == 0
    {
      TimesAdd(n, i, slot);
      assert LengthAt(r, SlotOffset(n + i, k, slot)) == 0;
    }
  }

  /** Quiet slots behind the messages change nothing. */
  lemma {:induction false} QueuedGrows(r: Bytes, k: nat, slot: nat, ms: seq<Bytes>, z: Bytes, j: nat)
    requires slot > HEADER_LEN && |r| == Times(k, slot) && |z| == Times(j, slot)
    requires Queued(r, k, slot, ms) && Quiet(z, j, slot)
    ensures |r + z| == Times(k + j, slot) && Queued(r + z, k + j, slot, ms)
    decreases |ms|
  {
    hide Times, Holds, Taken, Quiet;
    TimesAdd(k, j, slot);
    if ms == [] {
      QuietJoin(r, k, z, j, slot);
    } else {
      var n := Taken(ms[0], slot);
      HoldsTaken(r, k, slot, ms[0]);
      Prefix(n, k, slot);
      Prefix(n, k + j, slot);
      assert (r + z)[..Times(n, slot)] == r[..Times(n, slot)];
      HoldsPrefix(r, k, r + z, k + j, slot, ms[0]);
      QueuedGrows(r[Times(n, slot)..], k - n, slot, ms[1..], z, j);
      assert (r + z)[Times(n, slot)..] == r[Times(n, slot)..] + z;
      assert k + j - n == k - n + j;
    }
  }

  lemma HoldsTaken(r: Bytes, k: nat, slot: nat, m: Bytes)
    requires slot > HEADER_LEN && |r| == Times(k, slot) && Holds(r, k, slot, m)
    ensures 0 < Taken(m, slot) <= k
  {
  }

  lemma SpliceLocal(t: Bytes, x: Bytes, v: nat, d: Bytes)
    requires v + |d| <= |t|
    ensures Splice(t + x, v, d) == Splice(t, v, d) + x
  {
  }

  /** A message is laid without regard to what is behind it. */
  lemma LayLocal(t: Bytes, x: Bytes, slot: nat, src: Port, dst: Port, m: Bytes)
    requires Fits(|t|, slot, m)
    ensures Fits(|t + x|, slot, m) && Lay(t + x, slot, src, dst, m) == Lay(t, slot, src, dst, m) + x
  {
    hide Splice, Head, Times, SlotsOf, Lay;
    var n := HEADER_LEN + |m|;
    LayIs(t, slot, src, dst, m);
    LayIs(t + x, slot, src, dst, m);
    var t1 := Splice(t, 0, Head(src, dst, n));
    SpliceLocal(t, x, 0, Head(src, dst, n));
    SpliceLocal(t1, x, HEADER_LEN, m);
    SpliceLocal(Splice(t1, HEADER_LEN, m), x, Times(SlotsOf(n, slot), slot), Marker(src, dst));
  }

  predicate Long(m: Bytes, slot: nat) {
    slot > HEADER_LEN && slot - HEADER_LEN < |m| && HEADER_LEN + |m| < 0x1_0000
  }

  lemma TakenFits(m: Bytes, k: nat, slot: nat)
    requires Long(m, slot) && Taken(m, slot) <= k
    ensures Fits(Times(k, slot), slot, m)
  {
    hide Times, SlotsOf;
    var n := SlotsOf(HEADER_LEN + |m|, slot);
    SlotStart(n, k, slot);
  }

  /** A message laid into quiet slots is alone there. */
  lemma LayHolds(t: Bytes, k: nat, slot: nat, src: Port, dst: Port, m: Bytes)
    requires Long(m, slot) && |t| == Times(k, slot) && Taken(m, slot) <= k && Quiet(t, k, slot)
    ensures Fits(|t|, slot, m) && Queued(Lay(t, slot, src, dst, m), k, slot, [m])
  {
    hide Times, SlotsOf, Lay, Quiet, LengthAt;
    var n, len := Taken(m, slot), HEADER_LEN + |m|;
    TakenFits(m, k, slot);
    var r := Lay(t, slot, src, dst, m);
    ParseOfLay(t, slot, src, dst, m);
    SlotsCover(len, slot);
    SlotStart(n - 1, k, slot);
    TimesNext(n - 1, slot);
    LayBehind(t, slot, src, dst, m);
    Prefix(n, k, slot);
    QuietPart(t, k, slot, n);
    assert [m][1..] == [];
  }

  lemma LayBehind(t: Bytes, slot: nat, src: Port, dst: Port, m: Bytes)
    requires Fits(|t|, slot, m)
    ensures Times(Taken(m, slot), slot) <= |t|
    ensures Lay(t, slot, src, dst, m)[Times(Taken(m, slot), slot)..] == t[Times(Taken(m, slot), slot)..]
  {
    hide Times, SlotsOf, Lay;
    LayIs(t, slot, src, dst, m);
    TimesNext(Taken(m, slot) - 1, slot);
  }

  /** From byte `o` on, and only there, a message was laid. */
  predicate LaidAt(r: Bytes, r': Bytes, o: nat, slot: nat, src: Port, dst: Port, m: Bytes) {
    && o <= |r| == |r'| && Fits(|r| - o, slot, m)
    && r'[..o] == r[..o] && r'[o..] == Lay(r[o..], slot, src, dst, m)
  }

  lemma LaidBehind(r: Bytes, r': Bytes, e: nat, o: nat, slot: nat, src: Port, dst: Port, m: Bytes)
    requires e <= o && LaidAt(r, r', o, slot, src, dst, m)
    ensures r'[..e] == r[..e] && LaidAt(r[e..], r'[e..], o - e, slot, src, dst, m)
  {
    hide Lay;
    assert r[e..][o - e..] == r[o..] && r'[e..][o - e..] == r'[o..];
    assert r[e..][..o - e] == r[..o][e..] && r'[e..][..o - e] == r'[..o][e..];
    assert r'[..e] == r'[..o][..e] && r[..e] == r[..o][..e];
  }

  /** A message laid behind the queued ones joins them. */
  lemma {:induction false} LayJoins(r: Bytes, r': Bytes, k: nat, slot: nat, ms: seq<Bytes>,
                                    src: Port, dst: Port, m: Bytes)
    requires Long(m, slot) && |r| == |r'| == Times(k, slot) && Queued(r, k, slot, ms)
    requires Total(ms, slot) + Taken(m, slot) <= k
    requires LaidAt(r, r', Times(Total(ms, slot), slot), slot, src, dst, m)
    ensures Queued(r', k, slot, ms + [m])
    decreases |ms|
  {
    hide Times, Holds, Taken, Quiet, Lay, LaidAt;
    if ms == [] {
      TimesNext(0, slot);
      LaidAtStart(r, r', slot, src, dst, m);
      LayHolds(r, k, slot, src, dst, m);
      assert [] + [m] == [m];
    } else {
      var n := Taken(ms[0], slot);
      Prefix(n, k, slot);
      TimesAdd(n, Total(ms[1..], slot), slot);
      LaidBehind(r, r', Times(n, slot), Times(Total(ms, slot), slot), slot, src, dst, m);
      LayJoins(r[Times(n, slot)..], r'[Times(n, slot)..], k - n, slot, ms[1..], src, dst, m);
      HoldsPrefix(r, k, r', k, slot, ms[0]);
      assert (ms + [m])[1..] == ms[1..] + [m] && (ms + [m])[0] == ms[0];
    }
  }

  lemma LaidAtStart(r: Bytes, r': Bytes, slot: nat, src: Port, dst: Port, m: Bytes)
    requires LaidAt(r, r', 0, slot, src, dst, m)
    ensures Fits(|r|, slot, m) && r' == Lay(r, slot, src, dst, m)
  {
    assert r[0..] == r && r'[0..] == r';
  }

  // ---------- the ring as a queue of messages ----------

  lemma RotateTwice(b: Bytes, c: nat, o: nat, capacity: nat, slot: nat)
    requires c < capacity && o < capacity && slot > 0 && |b| == Times(capacity, slot)
    ensures Times(c, slot) <= |b| && Times(o, slot) <= |b| && Times(Advance(c, o, capacity), slot) <= |b|
    ensures Rotate(b, Times(Advance(c, o, capacity), slot)) == Rotate(Rotate(b, Times(c, slot)), Times(o, slot))
  {
    hide Times;
    SlotAddr(c, o, capacity, slot);
    SlotStart(Advance(c, o, capacity), capacity, slot);
  }

  lemma AdvanceTwice(c: nat, a: nat, b: nat, capacity: nat)
    requires c < capacity && a + b <= capacity && a < capacity
    ensures Advance(Advance(c, a, capacity), b, capacity) == Advance(c, a + b, capacity)
  {
  }

  /** What the sender laid, seen from the receiver's next slot. */
  lemma SeenFromReceiver(r: Bytes, r': Bytes, o: nat, slot: nat, src: Port, dst: Port, m: Bytes)
    requires o <= |r| == |r'| && Fits(|r| - o, slot, m)
    requires Fits(|r|, slot, m) && Rotate(r', o) == Lay(Rotate(r, o), slot, src, dst, m)
    ensures LaidAt(r, r', o, slot, src, dst, m)
  {
    hide Lay;
    LayLocal(r[o..], r[..o], slot, src, dst, m);
    var t := Lay(r[o..], slot, src, dst, m);
    assert r'[o..] == Rotate(r', o)[..|r| - o] == (t + r[..o])[..|r| - o] == t;
    assert r'[..o] == Rotate(r', o)[|r| - o..] == (t + r[..o])[|r| - o..] == r[..o];
  }

  lemma {:induction false} ClearBehind(r: Bytes, capacity: nat, slot: nat, n: nat)
    requires slot > HEADER_LEN && |r| == Times(capacity, slot) && n <= capacity
    ensures Times(n, slot) <= |r| && Clear(r, capacity, slot, n)[Times(n, slot)..] == r[Times(n, slot)..]
    decreases n
  {
    hide Times, Splice;
    Prefix(n, capacity, slot);
    if n > 0 {
      ClearBehind(r, capacity, slot, n - 1);
      TimesNext(n - 1, slot);
      SlotStart(n - 1, capacity, slot);
      var a, e := Clear(r, capacity, slot, n - 1), Times(n, slot);
      var d := Times(n - 1, slot);
      assert a[e..] == a[d..][slot..] && r[e..] == r[d..][slot..];
      SpliceBefore(a, d + 4, NO_LENGTH, e);
    }
  }

  lemma SpliceBefore(a: Bytes, v: nat, d: Bytes, e: nat)
    requires v + |d| <= e <= |a|
    ensures Splice(a, v, d)[e..] == a[e..]
  {
  }

  lemma ClearFront(r: Bytes, capacity: nat, slot: nat, n: nat)
    requires slot > HEADER_LEN && |r| == Times(capacity, slot) && n <= capacity
    ensures Times(n, slot) <= |r| && Quiet(Clear(r, capacity, slot, n)[..Times(n, slot)], n, slot)
  {
    hide Times, Clear;
    Prefix(n, capacity, slot);
    var a := Clear(r, capacity, slot, n);
    var front := a[..Times(n, slot)];
    forall i | 0 <= i < n
      ensures LengthAt(front, SlotOffset(i, n, slot)) == 0
    {
      ClearAt(r, capacity, slot, n, i);
    }
  }

  /** Taking the first message out leaves the others, and quiet slots behind them. */
  lemma CollectLeaves(r: Bytes, capacity: nat, slot: nat, ms: seq<Bytes>)
    requires slot > HEADER_LEN && |r| == Times(capacity, slot) && ms != [] && Queued(r, capacity, slot, ms)
    requires Taken(ms[0], slot) <= capacity
    ensures Times(Taken(ms[0], slot), slot) <= |r|
    ensures Queued(Rotate(Clear(r, capacity, slot, Taken(ms[0], slot)), Times(Taken(ms[0], slot), slot)),
                   capacity, slot, ms[1..])
  {
    hide Times, Clear, Quiet, Holds, Taken;
    var n := Taken(ms[0], slot);
    Prefix(n, capacity, slot);
    ClearBehind(r, capacity, slot, n);
    ClearFront(r, capacity, slot, n);
    var a := Clear(r, capacity, slot, n);
    QueuedGrows(r[Times(n, slot)..], capacity - n, slot, ms[1..], a[..Times(n, slot)], n);
    assert capacity - n + n == capacity;
  }

  /** Two ends of one ring, with these messages on their way. */
  ghost predicate Carries(tx: DataRing, rx: DataRing, ms: seq<Bytes>)
    reads tx, rx, rx.bytes
  {
    && tx.Valid() && rx.Valid() && tx != rx
    && tx.bytes == rx.bytes && tx.slot == rx.slot && tx.capacity == rx.capacity
    && Total(ms, rx.slot) < rx.capacity && tx.cur == Advance(rx.cur, Total(ms, rx.slot), rx.capacity)
    && Queued(rx.View(), rx.capacity, rx.slot, ms)
  }

  lemma {:induction false} TotalMore(ms: seq<Bytes>, m: Bytes, slot: nat)
    requires slot > 0
    ensures Total(ms + [m], slot) == Total(ms, slot) + Taken(m, slot)
    decreases |ms|
  {
    if ms == [] {
      assert ms + [m] == [m] && [m][1..] == [];
    } else {
      TotalMore(ms[1..], m, slot);
      assert (ms + [m])[1..] == ms[1..] + [m];
    }
  }

  /** The sender puts a long message behind those on their way; one slot stays free. */
  method Deposit(tx: DataRing, rx: DataRing, ghost ms: seq<Bytes>, src: Port, dst: Port, m: Bytes)
    requires Carries(tx, rx, ms) && Long(m, tx.slot) && Total(ms, tx.slot) + Taken(m, tx.slot) < tx.capacity
    modifies tx, tx.bytes
    ensures Carries(tx, rx, ms + [m])
  {
    hide Times, Rotate, Lay, Quiet, SlotsOf, Queued, Total, LaidAt;
    ghost var slot, capacity, c, o := tx.slot, tx.capacity, rx.cur, Total(ms, tx.slot);
    ghost var b, r := tx.bytes[..], rx.View();
    TakenFits(m, capacity, slot);
    TakenFits(m, capacity - o, slot);
    RotateTwice(b, c, o, capacity, slot);
    Prefix(o, capacity, slot);
    tx.SendMulti(src, dst, m);
    RotateTwice(tx.bytes[..], c, o, capacity, slot);
    SeenFromReceiver(r, rx.View(), Times(o, slot), slot, src, dst, m);
    LayJoins(r, rx.View(), capacity, slot, ms, src, dst, m);
    TotalMore(ms, m, slot);
    AdvanceTwice(c, o, Taken(m, slot), capacity);
  }

  /** The receiver takes the first message out, if there is one. */
  method Collect(tx: DataRing, rx: DataRing, ghost ms: seq<Bytes>) returns (got: Option<Bytes>)
    requires Carries(tx, rx, ms)
    modifies rx, rx.bytes
    ensures ms == [] ==> got == None && Carries(tx, rx, ms)
    ensures ms != [] ==> got == Some(ms[0]) && Carries(tx, rx, ms[1..])
  {
    hide Times, Rotate, Clear, Quiet, SlotsOf, Queued, Parse, Word, LengthAt;
    ghost var slot, capacity, c := rx.slot, rx.capacity, rx.cur;
    ghost var b, r := rx.bytes[..], rx.View();
    LengthInRotated(b, c, 0, capacity, slot);
    TimesNext(0, slot);
    FirstOfQueue(r, capacity, slot, ms);
    if rx.LengthOf(rx.cur) == 0 {
      return None;
    }
    ghost var n := Taken(ms[0], slot);
    got := rx.ReceiveMulti();
    CollectLeaves(r, capacity, slot, ms);
    RotateTwice(rx.bytes[..], c, n, capacity, slot);
    AdvanceTwice(c, n, Total(ms[1..], slot), capacity);
  }

  /** The length field of the next slot tells whether a message is there, and then the receiver finds it whole. */
  lemma FirstOfQueue(r: Bytes, capacity: nat, slot: nat, ms: seq<Bytes>)
    requires slot > HEADER_LEN && capacity > 0 && |r| == Times(capacity, slot) && Queued(r, capacity, slot, ms)
    ensures |r| >= slot && (LengthAt(r, 0) == 0 <==> ms == [])
    ensures ms != [] ==> LengthAt(r, 0) == HEADER_LEN + |ms[0]| && Parse(r, slot) == Some(ms[0])
    ensures ms != [] ==> Taken(ms[0], slot) <= capacity
  {
    hide Times, SlotsOf, LengthAt, Word;
    SlotStart(0, capacity, slot);
    TimesNext(0, slot);
    if ms == [] {
      assert LengthAt(r, SlotOffset(0, capacity, slot)) == 0;
    } else {
      SlotStart(Taken(ms[0], slot) - 1, capacity, slot);
    }
  }
}
