/**
 * The shared-memory block pool: an intrusive FIFO free list threaded through `next_node_idx`.
 *
 * `shm_mp_free` links the freed node behind the tail but never resets that node's own link, so
 * the tail's link is stale.  The list is therefore right exactly while its last block is not
 * handed out, which is what this module states in both directions.
 */
module MemPool {
  import opened RingIndex
  import opened Options

  const NIL: int := -1

  /** The link of every node, and the two ends of the free list. */
  datatype Pool = Pool(next: seq<int>, head: int, tail: int)

  predicate InPool(p: Pool, i: int) { 0 <= i < |p.next| }

  predicate Typed(p: Pool) {
    && (forall i :: 0 <= i < |p.next| ==> p.next[i] == NIL || InPool(p, p.next[i]))
    && (p.head == NIL || InPool(p, p.head)) && (p.tail == NIL || InPool(p, p.tail))
  }

  /** The block handed out, if any, and the pool afterwards. */
  function Allocate(p: Pool): (r: (Option<nat>, Pool))
    requires Typed(p)
    ensures Typed(r.1) && |r.1.next| == |p.next|
    ensures r.0.Some? ==> InPool(p, r.0.value)
  {
    if p.head == NIL then (None, p) else (Some(p.head), p.(head := p.next[p.head]))
  }

  function Release(p: Pool, x: nat): (r: Pool)
    requires Typed(p) && InPool(p, x)
    ensures Typed(r) && |r.next| == |p.next|
  {
    if p.tail != NIL then Pool(p.next[p.tail := x], p.head, x)
    else Pool(p.next[x := NIL], x, x)
  }

  // ---------- the free list as a queue ----------

  /** The list from head to tail visits exactly the blocks of `f`, in order and without repeats. */
  predicate Chain(p: Pool, f: seq<nat>) {
    && |f| > 0 && p.head == f[0] && p.tail == f[|f| - 1]
    && (forall i :: 0 <= i < |f| ==> InPool(p, f[i]))
    && (forall i, j :: 0 <= i < j < |f| ==> f[i] != f[j])
    && (forall i :: 0 <= i < |f| - 1 ==> p.next[f[i]] == f[i + 1])
  }

  lemma MallocTakesOldest(p: Pool, f: seq<nat>)
    requires Typed(p) && Chain(p, f) && |f| > 1
    ensures Allocate(p).0 == Some(f[0]) && Chain(Allocate(p).1, f[1..])
  {
  }

  lemma FreeAppends(p: Pool, f: seq<nat>, x: nat)
    requires Typed(p) && Chain(p, f) && InPool(p, x) && x !in f
    ensures Chain(Release(p, x), f + [x])
  {
  }

  // ---------- runs of a caller ----------

  datatype Op = Take | Give(x: nat)

  /** The pool, the blocks the caller holds, and what the last operation returned. */
  datatype Run = Run(pool: Pool, held: set<nat>, got: Option<nat>)

  function Fresh(n: nat): (p: Pool)
    ensures Typed(p) && |p.next| == n
  {
    if n == 0 then Pool([], NIL, NIL)
    else Pool(seq(n, i => if i + 1 < n then i + 1 else NIL), 0, n - 1)
  }

  /** A caller only gives back a block it holds. */
  predicate Allowed(r: Run, op: Op) { op.Give? ==> op.x in r.held && InPool(r.pool, op.x) }

  function Do(r: Run, op: Op): (r': Run)
    requires Typed(r.pool) && Allowed(r, op)
    ensures Typed(r'.pool) && |r'.pool.next| == |r.pool.next|
  {
    match op
    case Take =>
      var (b, p) := Allocate(r.pool);
      Run(p, if b.Some? then r.held + {b.value} else r.held, b)
    case Give(x) => Run(Release(r.pool, x), r.held - {x}, None)
  }

  /** A wrong answer: a block that is already out, or none although one is free. */
  predicate Wrong(r: Run, op: Op)
    requires Typed(r.pool) && Allowed(r, op)
  {
    op.Take? &&
    var b := Do(r, op).got;
    if b.Some? then b.value in r.held else exists i :: 0 <= i < |r.pool.next| && i !in r.held
  }

  function Blocks(n: nat): (s: set<nat>)
    ensures forall i :: i in s <==> 0 <= i < n
  {
    if n == 0 then {} else Blocks(n - 1) + {n - 1}
  }

  /** The free list holds, in order, exactly the blocks that the caller does not. */
  ghost predicate Sound(r: Run, f: seq<nat>) {
    && Typed(r.pool) && Chain(r.pool, f)
    && (forall i :: 0 <= i < |r.pool.next| ==> (i in f <==> i !in r.held))
    && r.held <= Blocks(|r.pool.next|)
  }

  /** The block numbers in order, as the set-up loop links them. */
  function Indices(n: nat): (f: seq<nat>)
    ensures |f| == n && forall i :: 0 <= i < n ==> f[i] == i
  {
    seq(n, i => i)
  }

  lemma FreshIsSound(n: nat)
    requires n > 0
    ensures Sound(Run(Fresh(n), {}, None), Indices(n))
  {
    var f, r := Indices(n), Run(Fresh(n), {}, None);
    forall i | 0 <= i < n
      ensures i in f
    {
      assert f[i] == i;
    }
    assert Chain(r.pool, f) by {
      FreshIsChained(n);
    }
  }

  lemma FreshIsChained(n: nat)
    requires n > 0
    ensures Typed(Fresh(n)) && Chain(Fresh(n), Indices(n))
  {
    var f := Indices(n);
    assert f[0] == 0 && f[n - 1] == n - 1;
  }

  /** The order in which blocks will be handed out, after one operation. */
  function After(f: seq<nat>, op: Op): seq<nat>
    requires op.Take? ==> |f| > 0
  {
    match op case Take => f[1..] case Give(x) => f + [x]
  }

  lemma OpKeepsSound(r: Run, f: seq<nat>, op: Op)
    requires Sound(r, f) && Allowed(r, op)
    requires op.Take? ==> |f| > 1
    ensures Sound(Do(r, op), After(f, op)) && !Wrong(r, op)
    ensures op.Take? ==> Do(r, op).got == Some(f[0]) && f[0] !in r.held
  {
    if op.Take? {
      MallocTakesOldest(r.pool, f);
      assert f == [f[0]] + f[1..];
    } else {
      FreeAppends(r.pool, f, op.x);
    }
  }

  /** The operations of a run that a caller may issue one after the other. */
  ghost predicate AllowedRun(r: Run, ops: seq<Op>)
    requires Typed(r.pool)
    decreases |ops|
  {
    ops == [] || (Allowed(r, ops[0]) && AllowedRun(Do(r, ops[0]), ops[1..]))
  }

  function DoAll(r: Run, ops: seq<Op>): (r': Run)
    requires Typed(r.pool) && AllowedRun(r, ops)
    ensures Typed(r'.pool)
    decreases |ops|
  {
    if ops == [] then r else DoAll(Do(r, ops[0]), ops[1..])
  }

  /** The caller never comes to hold every block. */
  ghost predicate SparesOne(r: Run, ops: seq<Op>)
    requires Typed(r.pool) && AllowedRun(r, ops)
    decreases |ops|
  {
    && r.held != Blocks(|r.pool.next|)
    && (ops != [] ==> SparesOne(Do(r, ops[0]), ops[1..]))
  }

  ghost predicate AnyWrong(r: Run, ops: seq<Op>)
    requires Typed(r.pool) && AllowedRun(r, ops)
    decreases |ops|
  {
    ops != [] && (Wrong(r, ops[0]) || AnyWrong(Do(r, ops[0]), ops[1..]))
  }

  /** The blocks that will be handed out, in order: what is freed queues up behind what is free. */
  ghost function Order(f: seq<nat>, ops: seq<Op>): seq<nat>
    decreases |ops|
  {
    if ops == [] || (ops[0].Take? && |f| == 0) then f else Order(After(f, ops[0]), ops[1..])
  }

  /** While one block is spared, for any order of frees, no answer is wrong. */
  lemma {:induction false} SparingOneIsSafe(r: Run, f: seq<nat>, ops: seq<Op>)
    requires Sound(r, f) && AllowedRun(r, ops) && SparesOne(r, ops)
    ensures !AnyWrong(r, ops) && Sound(DoAll(r, ops), Order(f, ops))
    decreases |ops|
  {
    if ops != [] {
      if ops[0].Take? && |f| == 1 {
        LastBlockEmptiesPool(r, f);
        assert false;
      }
      OpKeepsSound(r, f, ops[0]);
      SparingOneIsSafe(Do(r, ops[0]), After(f, ops[0]), ops[1..]);
    }
  }

  lemma LastBlockEmptiesPool(r: Run, f: seq<nat>)
    requires Sound(r, f) && |f| == 1
    ensures Do(r, Take).got == Some(f[0])
    ensures Do(r, Take).held == Blocks(|r.pool.next|)
    ensures Do(r, Take).pool.tail == f[0]
  {
    var r' := Do(r, Take);
    forall i | i in Blocks(|r.pool.next|)
      ensures i in r'.held
    {
      assert i in f <==> i !in r.held;
    }
    assert r'.held == Blocks(|r.pool.next|);
  }

  /** Once the last block is out, at most two more allowed operations give a wrong answer. */
  lemma TakingTheLastIsFatal(r: Run, f: seq<nat>)
    requires Sound(r, f) && |f| == 1
    ensures var r' := Do(r, Take);
            || (AllowedRun(r', [Take]) && AnyWrong(r', [Take]))
            || (AllowedRun(r', [Give(f[0])] + [Take]) && AnyWrong(r', [Give(f[0])] + [Take]))
  {
    LastBlockEmptiesPool(r, f);
    var r' := Do(r, Take);
    if r'.pool.head == NIL {
      var r'' := Do(r', Give(f[0]));
      assert Allowed(r', Give(f[0]));
      assert r''.pool.head == NIL && f[0] !in r''.held;
      assert Wrong(r'', Take);
      WrongAtOnce(r'', Take);
      WrongNext(r', Give(f[0]), [Take]);
    } else {
      assert Wrong(r', Take);
      WrongAtOnce(r', Take);
    }
  }

  lemma WrongAtOnce(r: Run, op: Op)
    requires Typed(r.pool) && Allowed(r, op) && Wrong(r, op)
    ensures AllowedRun(r, [op]) && AnyWrong(r, [op])
  {
    assert [op][0] == op && [op][1..] == [];
    assert AllowedRun(Do(r, op), []);
  }

  lemma WrongNext(r: Run, op: Op, ops: seq<Op>)
    requires Typed(r.pool) && Allowed(r, op) && AllowedRun(Do(r, op), ops) && AnyWrong(Do(r, op), ops)
    ensures AllowedRun(r, [op] + ops) && AnyWrong(r, [op] + ops)
  {
    assert ([op] + ops)[0] == op && ([op] + ops)[1..] == ops;
  }

  /** When the stale link is NIL the loss is permanent: no later operation gets a block again. */
  lemma {:induction false} LostForGood(r: Run, ops: seq<Op>)
    requires Typed(r.pool) && AllowedRun(r, ops)
    requires r.pool.head == NIL && r.pool.tail != NIL
    ensures var r' := DoAll(r, ops); r'.pool.head == NIL && r'.pool.tail != NIL && r'.held <= r.held
    decreases |ops|
  {
    if ops != [] {
      LostForGood(Do(r, ops[0]), ops[1..]);
    }
  }

  // ---------- addresses ----------

  /** `shm_offset_mem`: where block `i` starts. */
  function OffsetMem(base: int, blockLen: nat, i: nat): int {
    base + i * blockLen
  }

  /** `shm_mp_node_by_shmaddr`: the block of an address. */
  function NodeByAddr(base: int, blockLen: nat, addr: int): int
    requires blockLen > 0
  {
    (addr - base) / blockLen
  }

  /** Every address inside a block maps back to that block. */
  lemma AddressRoundTrip(base: int, blockLen: nat, i: nat, k: nat)
    requires k < blockLen
    ensures NodeByAddr(base, blockLen, OffsetMem(base, blockLen, i) + k) == i
  {
    DivisionIsUnique(i * blockLen + k, i, k, blockLen);
  }

  /** The pool as the source keeps it: links and list ends updated in place. */
  class ShmPool {
    const blockLen: nat
    const next: array<int>
    const offset: array<int>
    var head: int
    var tail: int

    ghost function View(): Pool
      reads this, next
    {
      Pool(next[..], head, tail)
    }

    ghost predicate Valid()
      reads this, next, offset
    {
      && Typed(View()) && next != offset && next.Length == offset.Length
      && (forall i :: 0 <= i < offset.Length ==> offset[i] == OffsetMem(0, blockLen, i))
    }

    /** The set-up loop links the nodes in index order and lays the blocks out back to back. */
    constructor (blockCount: nat, blockLen: nat)
      ensures Valid() && this.blockLen == blockLen && fresh(next) && fresh(offset)
      ensures View() == Fresh(blockCount)
    {
      this.blockLen := blockLen;
      next, offset := new int[blockCount], new int[blockCount];
      head, tail := NIL, NIL;
      new;
      var curr, shmOffset, i := NIL, 0, 0;
      while i < blockCount
        invariant 0 <= i <= blockCount && curr == i - 1
        invariant shmOffset == i * blockLen
        invariant head == (if i == 0 then NIL else 0) && tail == i - 1
        invariant forall k :: 0 <= k < i ==> next[k] == if k + 1 < i then k + 1 else NIL
        invariant forall k :: 0 <= k < i ==> offset[k] == OffsetMem(0, blockLen, k)
      {
        offset[i] := shmOffset;
        next[i] := NIL;
        if i == 0 {
          head := i;
        } else {
          next[curr] := i;
        }
        tail := i;
        curr := i;
        shmOffset := shmOffset + blockLen;
        i := i + 1;
      }
      assert next[..] == Fresh(blockCount).next;
    }

    method Malloc() returns (node: int)
      requires Valid()
      modifies this`head
      ensures Valid()
      ensures View() == Allocate(old(View())).1
      ensures node == match Allocate(old(View())).0 case None => NIL case Some(b) => b
    {
      node := head;
      if node != NIL {
        head := next[node];
      }
    }

    method Free(node: nat)
      requires Valid() && node < next.Length
      modifies this, next
      ensures Valid()
      ensures View() == Release(old(View()), node)
    {
      if tail != NIL {
        next[tail] := node;
        tail := node;
      } else {
        next[node] := NIL;
        tail := node;
        head := node;
      }
    }

    method NodeByShmaddr(shmMem: int, addr: int) returns (node: int)
      requires Valid() && blockLen > 0 && shmMem <= addr < shmMem + next.Length * blockLen
      ensures 0 <= node < next.Length
      ensures OffsetMem(shmMem, blockLen, node) <= addr < OffsetMem(shmMem, blockLen, node) + blockLen
    {
      node := (addr - shmMem) / blockLen;
      QuotientIsBelow(addr - shmMem, blockLen, next.Length);
    }
  }
}
