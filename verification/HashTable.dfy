/**
 * The chained hash map.  A bucket is the list of its entries, the first of which lives in the
 * table itself; an empty bucket is one whose first key is NULL.  `Equal` is key equality and the
 * hash function is any function of the key, reduced to the table's size.
 */
module HashTable {
  import opened Options

  datatype Entry<K, V> = Entry(key: K, value: V)

  type Bucket<K, V> = seq<Entry<K, V>>

  type Table<K, V> = seq<Bucket<K, V>>

  type Hash<!K> = K -> nat

  function Index<K>(hash: Hash<K>, key: K, n: nat): (i: nat)
    requires n > 0
    ensures i < n
  {
    hash(key) % n
  }

  function Find<K(==), V>(b: Bucket<K, V>, key: K): Option<V> {
    if b == [] then None else if b[0].key == key then Some(b[0].value) else Find(b[1..], key)
  }

  predicate Distinct<K(==), V>(b: Bucket<K, V>) {
    forall i, j :: 0 <= i < j < |b| ==> b[i].key != b[j].key
  }

  predicate Has<K(==), V>(b: Bucket<K, V>, key: K) {
    exists i :: 0 <= i < |b| && b[i].key == key
  }

  lemma {:induction false} FindAt<K, V>(b: Bucket<K, V>, i: nat)
    requires i < |b| && forall j :: 0 <= j < i ==> b[j].key != b[i].key
    ensures Find(b, b[i].key) == Some(b[i].value)
    decreases i
  {
    if i > 0 {
      assert b[1..][i - 1] == b[i];
      assert forall j :: 0 <= j < i - 1 ==> b[1..][j] == b[j + 1];
      FindAt(b[1..], i - 1);
    }
  }

  lemma {:induction false} FindNone<K, V>(b: Bucket<K, V>, key: K)
    ensures Find(b, key).None? <==> !Has(b, key)
    decreases |b|
  {
    if b != [] {
      FindNone(b[1..], key);
      if b[0].key != key {
        assert forall i :: 1 <= i < |b| ==> b[i] == b[1..][i - 1];
        assert Has(b[1..], key) ==> Has(b, key);
      }
    }
  }

  lemma {:induction false} FindAppend<K, V>(a: Bucket<K, V>, b: Bucket<K, V>, key: K)
    ensures Find(a + b, key) == if Find(a, key).Some? then Find(a, key) else Find(b, key)
    decreases |a|
  {
    if a == [] {
      assert a + b == b;
    } else {
      FindAppend(a[1..], b, key);
      assert (a + b)[1..] == a[1..] + b;
    }
  }

  /** Every entry is in the bucket of its key, and keys do not repeat. */
  predicate Placed<K(==), V>(list: Table<K, V>, hash: Hash<K>) {
    && |list| > 0
    && (forall i, j :: 0 <= i < |list| && 0 <= j < |list[i]| ==> Index(hash, list[i][j].key, |list|) == i)
    && (forall i :: 0 <= i < |list| ==> Distinct(list[i]))
  }

  /** What the map holds for a key. */
  function Look<K(==), V>(list: Table<K, V>, hash: Hash<K>, key: K): Option<V>
    requires |list| > 0
  {
    Find(list[Index(hash, key, |list|)], key)
  }

  /** All entries, bucket by bucket. */
  function Flat<K, V>(list: Table<K, V>): Bucket<K, V> {
    if list == [] then [] else Flat(list[..|list| - 1]) + list[|list| - 1]
  }

  /** Entries before bucket `m` are those of keys whose index is smaller. */
  lemma {:induction false} FlatIndex<K, V>(list: Table<K, V>, hash: Hash<K>, m: nat)
    requires Placed(list, hash) && m <= |list|
    ensures forall e :: e in Flat(list[..m]) ==> Index(hash, e.key, |list|) < m
    decreases m
  {
    if m > 0 {
      FlatIndex(list, hash, m - 1);
      FlatMore(list, m - 1);
    }
  }

  lemma FlatMore<K, V>(list: Table<K, V>, m: nat)
    requires m < |list|
    ensures Flat(list[..m + 1]) == Flat(list[..m]) + list[m]
  {
    assert list[..m + 1][..m] == list[..m];
  }

  lemma {:induction false} FlatDistinct<K, V>(list: Table<K, V>, hash: Hash<K>, m: nat)
    requires Placed(list, hash) && m <= |list|
    ensures Distinct(Flat(list[..m]))
    decreases m
  {
    if m > 0 {
      FlatDistinct(list, hash, m - 1);
      FlatIndex(list, hash, m - 1);
      FlatMore(list, m - 1);
      var a, b := Flat(list[..m - 1]), list[m - 1];
      forall i, j | 0 <= i < |a| && 0 <= j < |b|
        ensures a[i].key != b[j].key
      {
        assert a[i] in a && Index(hash, b[j].key, |list|) == m - 1;
      }
    }
  }

  /** Walking over all buckets finds what looking into one bucket finds. */
  lemma {:induction false} FindFlat<K, V>(list: Table<K, V>, hash: Hash<K>, m: nat, key: K)
    requires Placed(list, hash) && m <= |list|
    ensures Find(Flat(list[..m]), key) == if Index(hash, key, |list|) < m then Look(list, hash, key) else None
    decreases m
  {
    if m > 0 {
      FindFlat(list, hash, m - 1, key);
      FlatMore(list, m - 1);
      FindAppend(Flat(list[..m - 1]), list[m - 1], key);
      if Index(hash, key, |list|) != m - 1 {
        FindNone(list[m - 1], key);
      }
    }
  }

  /** The iteration order lists exactly the map's entries, each once. */
  lemma FlatIsMap<K, V>(list: Table<K, V>, hash: Hash<K>, key: K)
    requires Placed(list, hash)
    ensures Distinct(Flat(list)) && Find(Flat(list), key) == Look(list, hash, key)
  {
    assert list[..|list|] == list;
    FlatDistinct(list, hash, |list|);
    FindFlat(list, hash, |list|, key);
  }

  /** The number of entries when one bucket changes. */
  lemma {:induction false} FlatUpdate<K, V>(list: Table<K, V>, i: nat, b: Bucket<K, V>)
    requires i < |list|
    ensures |Flat(list[i := b])| == |Flat(list)| - |list[i]| + |b|
    decreases |list|
  {
    var n := |list| - 1;
    if i < n {
      FlatUpdate(list[..n], i, b);
      assert list[i := b][..n] == list[..n][i := b];
    } else {
      assert list[i := b][..n] == list[..n];
    }
  }

  lemma PlacedUpdate<K, V>(list: Table<K, V>, hash: Hash<K>, i: nat, b: Bucket<K, V>)
    requires Placed(list, hash) && i < |list| && Distinct(b)
    requires forall j :: 0 <= j < |b| ==> Index(hash, b[j].key, |list|) == i
    ensures Placed(list[i := b], hash)
  {
  }

  // ---------- put and remove on a bucket ----------

  /** The key whose value a put changes: when the key is in the bucket, the bucket's first key. */
  function Target<K(==), V>(b: Bucket<K, V>, key: K): K {
    if Has(b, key) then b[0].key else key
  }

  function PutIn<K(==), V>(b: Bucket<K, V>, key: K, value: V): Bucket<K, V> {
    if Has(b, key) then b[0 := Entry(b[0].key, value)]
    else if b == [] then [Entry(key, value)]
    else [b[0], Entry(key, value)] + b[1..]
  }

  lemma PutInFinds<K, V>(b: Bucket<K, V>, key: K, value: V, k: K)
    requires Distinct(b)
    ensures Find(PutIn(b, key, value), k) == if k == Target(b, key) then Some(value) else Find(b, k)
  {
    var b' := PutIn(b, key, value);
    if Has(b, key) {
      assert b'[1..] == b[1..];
    } else if b != [] {
      assert b'[1..] == [Entry(key, value)] + b[1..];
      assert b'[1..][1..] == b[1..];
      assert b[0].key != key;
    }
  }

  lemma PutInDistinct<K, V>(b: Bucket<K, V>, key: K, value: V)
    requires Distinct(b)
    ensures Distinct(PutIn(b, key, value))
    ensures |PutIn(b, key, value)| == |b| + if Has(b, key) then 0 else 1
    ensures forall e :: e in PutIn(b, key, value) ==> e.key == key || Has(b, e.key)
  {
    var b' := PutIn(b, key, value);
    if b != [] && !Has(b, key) {
      assert forall i :: 2 <= i < |b'| ==> b'[i] == b[i - 1];
    }
  }

  /** The bucket without entry `i`. */
  function Without<K, V>(b: Bucket<K, V>, i: nat): Bucket<K, V>
    requires i < |b|
  {
    b[..i] + b[i + 1..]
  }

  lemma WithoutDistinct<K, V>(b: Bucket<K, V>, i: nat)
    requires i < |b| && Distinct(b)
    ensures Distinct(Without(b, i)) && forall e :: e in Without(b, i) ==> e in b
  {
  }

  lemma WithoutFinds<K, V>(b: Bucket<K, V>, i: nat, k: K)
    requires i < |b| && Distinct(b)
    ensures Find(Without(b, i), k) == if k == b[i].key then None else Find(b, k)
  {
    var x, y := b[..i], b[i + 1..];
    FindAppend(x, y, k);
    FindAppend(x, [b[i]] + y, k);
    FindAppend([b[i]], y, k);
    assert b == x + ([b[i]] + y);
    assert Find([b[i]], k) == if k == b[i].key then Some(b[i].value) else None;
    if k == b[i].key {
      hide Find;
      FindNone(x, k);
      FindNone(y, k);
    }
  }

  // ---------- the map ----------

  /** `map'` is `map` with one key changed. */
  ghost predicate Changed<K(!new), V>(list: Table<K, V>, list': Table<K, V>, hash: Hash<K>, key: K, v: Option<V>)
    requires |list| > 0 && |list'| > 0
  {
    forall k :: Look(list', hash, k) == if k == key then v else Look(list, hash, k)
  }

  ghost predicate Same<K(!new), V>(list: Table<K, V>, list': Table<K, V>, hash: Hash<K>)
    requires |list| > 0 && |list'| > 0
  {
    forall k :: Look(list', hash, k) == Look(list, hash, k)
  }

  lemma TargetIndex<K, V>(list: Table<K, V>, hash: Hash<K>, key: K)
    requires Placed(list, hash)
    ensures var i := Index(hash, key, |list|); Index(hash, Target(list[i], key), |list|) == i
  {
    hide Index;
  }

  /** A change in one bucket changes the map alike. */
  lemma BucketChanges<K(!new), V>(list: Table<K, V>, hash: Hash<K>, i: nat, b: Bucket<K, V>, key: K, v: Option<V>)
    requires i < |list| && Index(hash, key, |list|) == i
    requires forall k :: Find(b, k) == if k == key then v else Find(list[i], k)
    ensures Changed(list, list[i := b], hash, key, v)
  {
    hide Index;
  }

  lemma PutChanges<K(!new), V>(list: Table<K, V>, hash: Hash<K>, key: K, value: V)
    requires Placed(list, hash)
    ensures var i := Index(hash, key, |list|);
            var list' := list[i := PutIn(list[i], key, value)];
            && Placed(list', hash) && Changed(list, list', hash, Target(list[i], key), Some(value))
            && |Flat(list')| == |Flat(list)| + if Has(list[i], key) then 0 else 1
  {
    hide Index, PutIn, Target, Flat, Changed;
    var i := Index(hash, key, |list|);
    var b := list[i];
    PutInDistinct(b, key, value);
    TargetIndex(list, hash, key);
    assert forall e :: e in PutIn(b, key, value) ==> Index(hash, e.key, |list|) == i;
    PlacedUpdate(list, hash, i, PutIn(b, key, value));
    FlatUpdate(list, i, PutIn(b, key, value));
    forall k
      ensures Find(PutIn(b, key, value), k) == if k == Target(b, key) then Some(value) else Find(b, k)
    {
      PutInFinds(b, key, value, k);
    }
    BucketChanges(list, hash, i, PutIn(b, key, value), Target(b, key), Some(value));
  }

  lemma RemoveChanges<K(!new), V>(list: Table<K, V>, hash: Hash<K>, i: nat, j: nat)
    requires Placed(list, hash) && i < |list| && j < |list[i]|
    ensures var list' := list[i := Without(list[i], j)];
            && Placed(list', hash) && Changed(list, list', hash, list[i][j].key, None)
            && |Flat(list')| == |Flat(list)| - 1
  {
    hide Index, Flat, Changed;
    var b := list[i];
    WithoutDistinct(b, j);
    PlacedUpdate(list, hash, i, Without(b, j));
    FlatUpdate(list, i, Without(b, j));
    forall k
      ensures Find(Without(b, j), k) == if k == b[j].key then None else Find(b, k)
    {
      WithoutFinds(b, j, k);
    }
    BucketChanges(list, hash, i, Without(b, j), b[j].key, None);
  }

  /**
   * A put is an update of its key exactly when the key is new or first in its bucket (or nothing
   * would change): for a key further down the chain it overwrites the first entry's value.
   */
  lemma WhenPutUpdates<K(!new), V>(list: Table<K, V>, hash: Hash<K>, key: K, value: V)
    requires Placed(list, hash)
    ensures var i := Index(hash, key, |list|);
            var target := Target(list[i], key);
            Changed(list, list[i := PutIn(list[i], key, value)], hash, key, Some(value)) <==>
              target == key || (Look(list, hash, key) == Some(value) && Look(list, hash, target) == Some(value))
  {
    PutChanges(list, hash, key, value);
    var i := Index(hash, key, |list|);
    var list', target := list[i := PutIn(list[i], key, value)], Target(list[i], key);
    assert Look(list', hash, target) == Some(value);
    assert target != key ==> Look(list', hash, key) == Look(list, hash, key);
  }

  /** Keys 0 and 8 share a bucket of eight: a put on 8 changes the value of 0 instead. */
  lemma PutOverwritesNeighbour() returns (list: Table<nat, nat>, hash: Hash<nat>)
    ensures Placed(list, hash) && Look(list, hash, 0) == Some(10) && Look(list, hash, 8) == Some(20)
    ensures Index(hash, 8, |list|) == 0
    ensures var list' := list[0 := PutIn(list[0], 8, 30)];
            Look(list', hash, 0) == Some(30) && Look(list', hash, 8) == Some(20)
  {
    var b: Bucket<nat, nat> := [Entry(0, 10), Entry(8, 20)];
    hash := (k: nat) => k;
    list := Empty(8)[0 := b];
    assert b[1].key == 8 && Has(b, 8);
    assert b[1..] == [Entry(8, 20)];
    var b' := PutIn(b, 8, 30);
    assert b' == [Entry(0, 30), Entry(8, 20)];
    assert b'[1..] == [Entry(8, 20)];
  }

  // ---------- rebuilding ----------

  function Empty<K, V>(n: nat): (list: Table<K, V>)
    ensures |list| == n && forall i :: 0 <= i < n ==> list[i] == []
  {
    seq(n, _ => [])
  }

  lemma {:induction false} EmptyFlat<K, V>(list: Table<K, V>)
    requires forall i :: 0 <= i < |list| ==> list[i] == []
    ensures Flat(list) == []
    decreases |list|
  {
    if list != [] {
      EmptyFlat(list[..|list| - 1]);
    }
  }

  lemma EmptyIsPlaced<K(!new), V>(hash: Hash<K>, n: nat)
    requires n > 0
    ensures Placed(Empty<K, V>(n), hash) && Flat(Empty<K, V>(n)) == [] && Inserted(Empty<K, V>(n), hash, [])
  {
    EmptyFlat(Empty<K, V>(n));
  }

  /** The table holds exactly these entries. */
  ghost predicate Inserted<K(!new), V>(list: Table<K, V>, hash: Hash<K>, es: Bucket<K, V>)
    requires |list| > 0
  {
    forall k :: Look(list, hash, k) == Find(es, k)
  }

  /** The next entry of the old table is not in the new one yet. */
  lemma NextInsert<K(!new), V>(before: Table<K, V>, list: Table<K, V>, hash: Hash<K>, i: nat)
    requires Placed(before, hash) && i < |Flat(before)| && |list| > 0 && Inserted(list, hash, Flat(before)[..i])
    ensures var key := Flat(before)[i].key;
            Look(list, hash, key).None? && Target(list[Index(hash, key, |list|)], key) == key
  {
    hide Index, Find, Flat;
    var all := Flat(before);
    FlatIsMap(before, hash, all[i].key);
    FindNone(all[..i], all[i].key);
    FindNone(list[Index(hash, all[i].key, |list|)], all[i].key);
  }

  lemma InsertedMore<K(!new), V>(before: Table<K, V>, l: Table<K, V>, list: Table<K, V>, hash: Hash<K>, i: nat)
    requires Placed(before, hash) && i < |Flat(before)| && |l| > 0 && |list| > 0
    requires Inserted(l, hash, Flat(before)[..i])
    requires Changed(l, list, hash, Flat(before)[i].key, Some(Flat(before)[i].value))
    ensures Inserted(list, hash, Flat(before)[..i + 1])
  {
    hide Index, Flat, Placed;
    var all := Flat(before);
    FlatIsMap(before, hash, all[i].key);
    assert all[..i + 1] == all[..i] + [all[i]];
    forall k
      ensures Look(list, hash, k) == Find(all[..i + 1], k)
    {
      FindAppend(all[..i], [all[i]], k);
      FindNone(all[..i], k);
      assert Look(l, hash, k) == Find(all[..i], k);
    }
  }

  lemma AllInserted<K(!new), V>(before: Table<K, V>, list: Table<K, V>, hash: Hash<K>)
    requires Placed(before, hash) && |list| > 0 && Inserted(list, hash, Flat(before))
    ensures Same(before, list, hash)
  {
    hide Index, Find, Flat;
    forall k
      ensures Look(list, hash, k) == Look(before, hash, k)
    {
      FlatIsMap(before, hash, k);
    }
  }

  lemma SameAfter<K(!new), V>(a: Table<K, V>, b: Table<K, V>, c: Table<K, V>, hash: Hash<K>, key: K, v: Option<V>)
    requires |a| > 0 && |b| > 0 && |c| > 0 && Changed(a, b, hash, key, v) && Same(b, c, hash)
    ensures Changed(a, c, hash, key, v)
  {
    hide Index, Find;
  }

  lemma NothingToRemove<K(!new), V>(list: Table<K, V>, hash: Hash<K>, key: K)
    requires |list| > 0
    ensures Look(list, hash, key).None? ==> Changed(list, list, hash, key, None)
  {
  }

  lemma PutInEmpty<K, V>(key: K, value: V)
    ensures PutIn([], key, value) == [Entry(key, value)]
  {
  }

  lemma PutInFound<K, V>(b: Bucket<K, V>, key: K, value: V)
    requires Has(b, key)
    ensures PutIn(b, key, value) == b[0 := Entry(b[0].key, value)]
  {
  }

  lemma PutInNew<K, V>(b: Bucket<K, V>, key: K, value: V)
    requires b != [] && !Has(b, key)
    ensures PutIn(b, key, value) == [b[0], Entry(key, value)] + b[1..]
  {
  }

  lemma StartOfFlat<K, V>(list: Table<K, V>)
    ensures Flat(list[..0]) == [] && list[..|list|] == list
  {
  }

  /** Where an entry comes in iteration order. */
  lemma {:induction false} FlatAt<K, V>(list: Table<K, V>, i: nat, j: nat)
    requires i < |list| && j < |list[i]|
    ensures |Flat(list[..i])| + j < |Flat(list)| && Flat(list)[|Flat(list[..i])| + j] == list[i][j]
    decreases |list|
  {
    var n := |list| - 1;
    if i < n {
      FlatAt(list[..n], i, j);
      assert list[..n][..i] == list[..i];
    }
  }

  // ---------- the implementation ----------

  const MIN_SIZE: nat := 8

  const DEFAULT_SIZE: nat := 4096

  class HashMap<K(==, !new), V> {
    const hash: Hash<K>
    var size: nat
    var list: Table<K, V>

    ghost predicate Valid()
      reads this
    {
      Placed(list, hash) && size == |Flat(list)| && size < |list| && |list| >= MIN_SIZE
    }

    constructor (hash: Hash<K>)
      ensures Valid() && this.hash == hash && |list| == DEFAULT_SIZE
      ensures forall k :: Look(list, hash, k) == None
    {
      this.hash := hash;
      size := 0;
      list := Empty(DEFAULT_SIZE);
      new;
      EmptyIsPlaced<K, V>(hash, DEFAULT_SIZE);
    }

    method Exists(key: K) returns (found: bool)
      requires Valid()
      ensures found <==> Look(list, hash, key).Some?
    {
      hide Index, Find;
      var index := Index(hash, key, |list|);
      FindNone(list[index], key);
      var cur := 0;
      while cur < |list[index]|
        invariant cur <= |list[index]| && forall i :: 0 <= i < cur ==> list[index][i].key != key
      {
        if list[index][cur].key == key {
          return true;
        }
        cur := cur + 1;
      }
      return false;
    }

    method Get(key: K) returns (value: Option<V>)
      requires Valid()
      ensures value == Look(list, hash, key)
    {
      hide Index, Find;
      var index := Index(hash, key, |list|);
      FindNone(list[index], key);
      var found := Exists(key);
      if found {
        var cur := 0;
        while cur < |list[index]|
          invariant cur <= |list[index]| && forall i :: 0 <= i < cur ==> list[index][i].key != key
        {
          if list[index][cur].key == key {
            FindAt(list[index], cur);
            return Some(list[index][cur].value);
          }
          cur := cur + 1;
        }
      }
      return None;
    }

    /** A new key is added; otherwise the first entry of the key's bucket gets the value. */
    method Put(key: K, value: V)
      requires Valid()
      modifies this
      ensures Valid()
      ensures Changed(old(list), list, hash, Target(old(list[Index(hash, key, |list|)]), key), Some(value))
      ensures size == old(size) + if old(Look(list, hash, key)).Some? then 0 else 1
      ensures old(size) + 1 < old(|list|) ==> |list| == old(|list|)
      decreases if size + 1 >= |list| then 2 else 0
    {
      hide Index, Find, Flat, Placed, Changed, PutIn, Target;
      var index := Index(hash, key, |list|);
      var b := list[index];
      ghost var before := list;
      FindNone(b, key);
      PutChanges(list, hash, key, value);
      if b == [] {
        size := size + 1;
        list := list[index := [Entry(key, value)]];
        PutInEmpty(key, value);
      } else {
        var cur := 0;
        while cur < |b|
          invariant cur <= |b| && forall i :: 0 <= i < cur ==> b[i].key != key
          invariant list == before && size == old(size)
        {
          if b[cur].key == key {
            list := list[index := b[0 := Entry(b[0].key, value)]];
            PutInFound(b, key, value);
            return;
          }
          cur := cur + 1;
        }
        list := list[index := [b[0], Entry(key, value)] + b[1..]];
        PutInNew(b, key, value);
        size := size + 1;
      }
      if size >= |list| {
        ghost var grown := list;
        Reset(|list| * 2);
        SameAfter(before, grown, list, hash, Target(b, key), Some(value));
      }
    }

    /** The bucket's first key is returned, whether or not the key was there. */
    method Remove(key: K) returns (first: Option<K>)
      requires Valid()
      modifies this
      ensures Valid()
      ensures Changed(old(list), list, hash, key, None)
      ensures size == old(size) - if old(Look(list, hash, key)).Some? then 1 else 0
      ensures var b := old(list[Index(hash, key, |list|)]); first == if b == [] then None else Some(b[0].key)
    {
      hide Index, Find, Flat, Placed, Changed;
      var index := Index(hash, key, |list|);
      var b := list[index];
      ghost var before := list;
      FindNone(b, key);
      NothingToRemove(list, hash, key);
      if b == [] {
        return None;
      }
      first := Some(b[0].key);
      var cur := 0;
      while cur < |b|
        invariant cur <= |b| && forall i :: 0 <= i < cur ==> b[i].key != key
        invariant list == before && size == old(size)
      {
        if b[cur].key == key {
          RemoveChanges(list, hash, index, cur);
          size := size - 1;
          list := list[index := Without(b, cur)];
          if size < |list| / 2 {
            ghost var shrunk := list;
            Reset(|list| / 2);
            SameAfter(before, shrunk, list, hash, key, None);
          }
          return;
        }
        cur := cur + 1;
      }
    }

    /** Rebuilds the table at a new size; asked for fewer than eight buckets, it does nothing. */
    method Reset(listSize: nat)
      requires Placed(list, hash) && size == |Flat(list)| && size < listSize
      modifies this
      ensures Placed(list, hash) && size == |Flat(list)| == old(size)
      ensures Same(old(list), list, hash)
      ensures |list| == if listSize < MIN_SIZE then old(|list|) else listSize
      decreases 1
    {
      hide Index, Find, Flat, Placed;
      if listSize < MIN_SIZE {
        return;
      }
      ghost var before := list;
      var temp := [];
      var length := size;
      var cursor := new Cursor(this);
      StartOfFlat(list);
      while cursor.HasNext()
        invariant fresh(cursor) && cursor.Valid() && cursor.hashMap == this && unchanged(this)
        invariant cursor.count <= size && temp == Flat(list)[..cursor.count]
        decreases size - cursor.count
      {
        var entry := cursor.Next();
        temp := temp + [entry];
      }
      assert temp == Flat(before);
      size := 0;
      list := Empty(listSize);
      EmptyIsPlaced<K, V>(hash, listSize);
      for i := 0 to length
        invariant Valid() && size == i && |list| == listSize
        invariant Inserted(list, hash, temp[..i])
      {
        NextInsert(before, list, hash, i);
        ghost var l := list;
        Put(temp[i].key, temp[i].value);
        InsertedMore(before, l, list, hash, i);
      }
      assert temp[..length] == temp;
      AllInserted(before, list, hash);
    }
  }

  /** Walks over the buckets and down their chains. */
  class Cursor<K(==, !new), V> {
    const hashMap: HashMap<K, V>
    var count: nat
    var bucket: int          // -1 before the first bucket
    var pos: nat             // place in the bucket, once one has been found

    /** What has been passed is a prefix of the entries in iteration order. */
    ghost predicate Valid()
      reads this, hashMap
    {
      && hashMap.size == |Flat(hashMap.list)|
      && -1 <= bucket < |hashMap.list|
      && (bucket == -1 ==> count == 0)
      && (bucket >= 0 ==> pos < |hashMap.list[bucket]| && count == |Flat(hashMap.list[..bucket])| + pos + 1)
    }

    constructor (hashMap: HashMap<K, V>)
      requires hashMap.size == |Flat(hashMap.list)|
      ensures Valid() && this.hashMap == hashMap && count == 0
    {
      this.hashMap := hashMap;
      count := 0;
      bucket := -1;
      pos := 0;
    }

    predicate HasNext()
      reads this, hashMap
    {
      count < hashMap.size
    }

    method Next() returns (entry: Entry<K, V>)
      requires Valid() && HasNext()
      modifies this
      ensures Valid() && count == old(count) + 1 <= hashMap.size
      ensures entry == Flat(hashMap.list)[old(count)]
    {
      hide Flat;
      var list := hashMap.list;
      if bucket >= 0 && pos + 1 < |list[bucket]| {
        count := count + 1;
        pos := pos + 1;
        FlatAt(list, bucket, pos);
        return list[bucket][pos];
      }
      StartOfFlat(list);
      if bucket >= 0 {
        FlatMore(list, bucket);
      }
      bucket := bucket + 1;
      while bucket < |list| && list[bucket] == []
        invariant 0 <= bucket <= |list| && count == old(count) == |Flat(list[..bucket])|
      {
        FlatMore(list, bucket);
        bucket := bucket + 1;
      }
      assert list[..|list|] == list;
      count := count + 1;
      pos := 0;
      FlatAt(list, bucket, 0);
      return list[bucket][0];
    }
  }
}
