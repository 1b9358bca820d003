/**
 * The ring behind a listener's backlog.  Its indices move on by a bit mask of one less than the
 * number of elements asked for, whether or not that number is a power of two.
 */
module MaskRing {
  import opened Options
  import opened RingIndex
  import ShmRing

  /** The bits that two numbers share. */
  function And(a: nat, b: nat): nat
    decreases a
  {
    if a == 0 then 0 else 2 * And(a / 2, b / 2) + (if a % 2 == 1 && b % 2 == 1 then 1 else 0)
  }

  /** `mask_increment` in a ring of `size` elements. */
  function MaskNext(idx: nat, size: nat): nat
    requires size > 0
  {
    And(idx + 1, size - 1)
  }

  /** The largest power of two that divides a number. */
  function PowerPart(n: nat): (p: nat)
    requires n > 0
    ensures 0 < p <= n
  {
    if n % 2 == 1 then 1 else 2 * PowerPart(n / 2)
  }

  /** The low bits below that power are all set in the mask, and the next one is not. */
  lemma {:induction false} MaskKeeps(x: nat, size: nat)
    requires size > 0 && x <= PowerPart(size)
    ensures And(x, size - 1) == if x < PowerPart(size) then x else 0
    decreases size
  {
    if x > 0 {
      if size % 2 == 1 {
        assert And(0, (size - 1) / 2) == 0;
      } else {
        assert (size - 1) / 2 == size / 2 - 1 && (size - 1) % 2 == 1;
        MaskKeeps(x / 2, size / 2);
      }
    }
  }

  /** The indices go round through as many slots as that power tells, and no further. */
  lemma MaskIsWrap(idx: nat, size: nat)
    requires size > 0 && idx < PowerPart(size)
    ensures MaskNext(idx, size) == Increment(idx, PowerPart(size))
  {
    MaskKeeps(idx + 1, size);
    var p := PowerPart(size);
    if idx + 1 < p {
      SmallRemainder(idx + 1, p);
    } else {
      assert p % p == 0;
    }
  }

  lemma SmallRemainder(x: nat, p: nat)
    requires x < p
    ensures x % p == x
  {
  }

  /** How many elements the ring holds: none at all for an odd size. */
  function Room(size: nat): nat
    requires size > 0
  {
    PowerPart(size) - 1
  }

  /** It holds one less than was asked for if and only if that number is a power of two. */
  lemma WhenRoomIsFull(size: nat)
    requires size > 0
    ensures Room(size) == size - 1 <==> IsPower(size)
    ensures Room(size) == 0 <==> size % 2 == 1
  {
    if IsPower(size) {
      PowerOfPower(size);
    }
    if PowerPart(size) == size {
      PartIsPower(size);
    }
  }

  predicate IsPower(n: nat) { n == 1 || (n > 0 && n % 2 == 0 && IsPower(n / 2)) }

  lemma {:induction false} PartIsPower(n: nat)
    requires n > 0
    ensures IsPower(PowerPart(n))
  {
    if n % 2 == 0 {
      PartIsPower(n / 2);
      assert PowerPart(n) / 2 == PowerPart(n / 2);
    }
  }

  lemma {:induction false} PowerOfPower(n: nat)
    requires IsPower(n)
    ensures PowerPart(n) == n
  {
    if n != 1 {
      PowerOfPower(n / 2);
    }
  }

  lemma MultiplesOfSixteen(n: nat)
    requires n > 0
    ensures PowerPart(n) >= 16 <==> n % 16 == 0
  {
    hide PowerPart;
    AtLeastDouble(n, 8);
    if n % 2 == 0 {
      MultiplesOfEight(n / 2);
    }
  }

  lemma MultiplesOfEight(n: nat)
    requires n > 0
    ensures PowerPart(n) >= 8 <==> n % 8 == 0
  {
    hide PowerPart;
    AtLeastDouble(n, 4);
    if n % 2 == 0 {
      MultiplesOfFour(n / 2);
    }
  }

  lemma MultiplesOfFour(n: nat)
    requires n > 0
    ensures PowerPart(n) >= 4 <==> n % 4 == 0
  {
    AtLeastDouble(n, 2);
    if n % 2 == 0 {
      AtLeastDouble(n / 2, 1);
    }
  }

  lemma AtLeastDouble(n: nat, q: nat)
    requires n > 0 && q > 0
    ensures PowerPart(n) >= 2 * q <==> n % 2 == 0 && PowerPart(n / 2) >= q
  {
  }

  /** `nt_spsc_shmring`, in one thread. */
  class Ring<T(0)> {
    const data: array<T>
    var writeIdx: nat
    var readIdx: nat
    ghost var contents: seq<T>          // what was pushed and not yet popped, oldest first

    ghost predicate Valid()
      reads this, data
    {
      && data.Length > 0 && writeIdx < PowerPart(data.Length) && readIdx < PowerPart(data.Length)
      && |contents| <= Room(data.Length)
      && contents == ShmRing.Window(data[..PowerPart(data.Length)], readIdx, |contents|)
      && writeIdx == Slot(readIdx + |contents|, PowerPart(data.Length))
    }

    constructor (size: nat)
      requires size > 0
      ensures Valid() && data.Length == size && contents == [] && fresh(data)
    {
      data := new T[size];
      writeIdx, readIdx, contents := 0, 0, [];
    }

    /** Where the next push would collide with the next pop. */
    method IsFull() returns (b: bool)
      requires Valid()
      ensures b <==> |contents| == Room(data.Length)
    {
      ghost var p := PowerPart(data.Length);
      MaskIsWrap(writeIdx, data.Length);
      Next(readIdx + |contents|, p);
      SlotsWithinLap(readIdx, readIdx + |contents| + 1, p);
      b := MaskNext(writeIdx, data.Length) == readIdx;
    }

    method Push(x: T) returns (ok: bool)
      requires Valid()
      modifies this, data
      ensures Valid()
      ensures ok <==> |old(contents)| < Room(data.Length)
      ensures contents == if ok then old(contents) + [x] else old(contents)
    {
      ghost var p, n := PowerPart(data.Length), |contents|;
      MaskIsWrap(writeIdx, data.Length);
      Next(readIdx + n, p);
      SlotsWithinLap(readIdx, readIdx + n + 1, p);
      if MaskNext(writeIdx, data.Length) == readIdx {
        return false;
      }
      ghost var d := data[..p];
      data[writeIdx] := x;
      assert data[..p] == d[writeIdx := x];
      assert data[..p] == ShmRing.StoreRun(d, writeIdx, [x]);
      ShmRing.WindowFrame(d, readIdx, n, writeIdx, [x]);
      writeIdx := MaskNext(writeIdx, data.Length);
      contents := contents + [x];
      ok := true;
    }

    method Pop() returns (x: Option<T>)
      requires Valid()
      modifies this
      ensures Valid()
      ensures x.None? <==> old(contents) == []
      ensures x.None? ==> contents == old(contents)
      ensures x.Some? ==> x.value == old(contents)[0] && contents == old(contents)[1..]
    {
      ghost var p := PowerPart(data.Length);
      SlotsWithinLap(readIdx, readIdx + |contents|, p);
      if writeIdx == readIdx {
        return None;
      }
      MaskIsWrap(readIdx, data.Length);
      ShmRing.WindowHead(data[..p], readIdx, |contents|);
      ShmRing.WindowSuffix(data[..p], readIdx, |contents|, 1);
      Next(readIdx, p);
      ShmRing.SlotOfSum(readIdx + 1, |contents| - 1, p);
      x := Some(data[readIdx]);
      readIdx := MaskNext(readIdx, data.Length);
      contents := contents[1..];
    }
  }
}
