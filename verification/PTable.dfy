/** The table from pointers to pointers, and the iterator over it.  It refines a finite map. */
module PTable {
  import opened Varint
  import opened Chains

  /** Pointers are numbers, and NULL is 0.  A cell's hash is that of its key; the source computes it anew. */
  datatype Pair = Pair(key: nat, value: nat)

  const NULL := 0

  class Table {
    const hash: nat -> nat

    var heads: seq<Option<nat>>   // the bucket array
    var max: nat                  // one less than the number of buckets
    var items: nat
    var cells: seq<Cell<Pair>>    // the entries, also those that have been freed

    ghost var chains: seq<seq<nat>>
    ghost var live: set<nat>
    ghost var at: map<nat, nat>   // where the entry of each key is

    ghost predicate Valid()
      reads this
    {
      && |heads| == max + 1 && Filed(cells, heads, chains, live) && |at| <= items
      && Keyed(cells, live, at, hash)
    }

    /** The map the table stands for. */
    ghost function Contents(): map<nat, nat>
      requires Valid()
      reads this
    {
      Mapped(cells, live, at, hash)
    }

    constructor (hash: nat -> nat, exponent: nat)
      ensures Valid() && Contents() == map[] && this.hash == hash && items == 0 && max + 1 == PowerOfTwo(exponent)
    {
      this.hash := hash;
      var n := PowerOfTwo(exponent);
      heads := seq(n, _ => None);
      chains := seq(n, _ => []);
      max, items, cells, live, at := n - 1, 0, [], {}, map[];
    }

    method Find(key: nat) returns (r: Option<nat>)
      requires Valid()
      ensures r == if key in at then Some(at[key]) else None
      ensures r.Some? ==> r.value < |cells|
    {
      hide Filed, Slot;
      FiledSize(cells, heads, chains, live);
      var b := Slot(hash(key), max + 1);
      BucketStart(cells, heads, chains, live, b);
      ghost var k := 0;
      r := heads[b];
      while r.Some?
        invariant 0 <= k <= |chains[b]| && r == (if k < |chains[b]| then Some(chains[b][k]) else None)
        invariant forall j :: 0 <= j < k ==> chains[b][j] < |cells| && cells[chains[b][j]].data.key != key
        decreases |chains[b]| - k
      {
        BucketNext(cells, heads, chains, live, b, k);
        if cells[r.value].data.key == key {
          return;
        }
        r, k := cells[r.value].next, k + 1;
      }
      if key in at {
        InItsBucket(cells, heads, chains, live, at[key]);
      }
    }

    method Fetch(key: nat) returns (value: nat)
      requires Valid()
      ensures value == if key in Contents() then Contents()[key] else NULL
    {
      hide Filed;
      var r := Find(key);
      value := if r.Some? then cells[r.value].data.value else NULL;
    }

    /** Maps key to value, in a new entry if there is none. */
    method Store(key: nat, value: nat) returns (entry: nat)
      requires Valid()
      modifies this
      ensures Valid() && Contents() == old(Contents())[key := value]
      ensures key in at && entry == at[key]
      ensures items == old(items) + (if key in old(at) then 0 else 1)
      ensures max == if key !in old(at) && old(Crowded(key)) && old(items) + 1 > old(max) then 2 * old(max) + 1 else old(max)
    {
      hide *;
      var r := Find(key);
      if r.Some? {
        entry := r.value;
        Overwrite(entry, key, value);
      } else {
        BucketTaken(key);
        entry := Add(key, value);
        if cells[entry].next.Some? && items > max {
          Grow();
        }
      }
    }

    method Overwrite(entry: nat, key: nat, value: nat)
      requires Valid() && key in at && at[key] == entry && entry < |cells|
      modifies `cells
      ensures Valid() && Contents() == old(Contents())[key := value]
    {
      hide Filed;
      ghost var was := cells;
      cells := cells[entry := cells[entry].(data := Pair(cells[entry].data.key, value))];
      FiledSame(was, cells, heads, chains, live);
      KeyedWritten(was, cells, live, at, hash, key);
      hide Keyed, Mapped;
    }

    method Add(key: nat, value: nat) returns (entry: nat)
      requires Valid() && key !in at
      modifies this
      ensures Valid() && Contents() == old(Contents())[key := value]
      ensures max == old(max) && items == old(items) + 1 && key in at && at[key] == entry < |cells|
      ensures old(|heads|) == max + 1 && cells[entry].next == old(heads)[Slot(hash(key), max + 1)]
    {
      hide Filed, Slot, Keyed, Mapped;
      FiledSize(cells, heads, chains, live);
      FiledInside(cells, heads, chains, live);
      var b := Slot(hash(key), max + 1);
      entry := |cells|;
      ghost var was := cells;
      cells := cells + [Cell(heads[b], hash(key), Pair(key, value))];
      FiledMore(was, cells, heads, chains, live, entry, b);
      heads := heads[b := Some(entry)];
      items := items + 1;
      KeyedMore(was, cells, live, at, hash, key, entry);
      chains, live, at := chains[b := [entry] + chains[b]], live + {entry}, at[key := entry];
    }

    /** Another key is in the bucket of this one. */
    ghost predicate Crowded(key: nat)
      reads this
    {
      exists k :: k in at && hash(k) % (max + 1) == hash(key) % (max + 1)
    }

    lemma BucketTaken(key: nat)
      requires Valid()
      ensures heads[Slot(hash(key), max + 1)].Some? <==> Crowded(key)
    {
      hide Filed;
      var b := Slot(hash(key), max + 1);
      BucketUsed(cells, heads, chains, live, b);
    }

    /** Doubles the number of buckets. */
    method Grow()
      requires Valid()
      modifies `heads, `max, `cells, `chains
      ensures Valid() && Contents() == old(Contents()) && max == 2 * old(max) + 1 && |cells| == |old(cells)|
    {
      hide Filed;
      FiledInside(cells, heads, chains, live);
      ghost var was := cells;
      cells, heads, chains := Chains.Grow(cells, heads, chains, live);
      max := 2 * max + 1;
      KeyedSame(was, cells, live, at, hash);
    }

    /** Takes key out.  The count of items is not lowered. */
    method Delete(key: nat)
      requires Valid()
      modifies `heads, `cells, `chains, `live, `at
      ensures Valid() && Contents() == old(Contents()) - {key}
      ensures key !in at
    {
      hide Filed, Keyed, Mapped;
      if items == 0 {
        Nothing();
        return;
      }
      var r := Find(key);
      if r.Some? {
        Remove(key, r.value);
      } else {
        MappedLess(cells, live, at, hash, key);
      }
    }

    lemma Nothing()
      requires Valid() && items == 0
      ensures at == map[] && live == {} && Contents() == map[]
    {
      hide Filed;
    }

    method Remove(key: nat, entry: nat)
      requires Valid() && key in at && at[key] == entry
      modifies `heads, `cells, `chains, `live, `at
      ensures Valid() && Contents() == old(Contents()) - {key} && key !in at
    {
      hide Filed, Keyed, Mapped;
      FiledInside(cells, heads, chains, live);
      KeyedAt(cells, live, at, hash, key);
      ghost var was := cells;
      cells, heads, chains := Unlink(cells, heads, chains, live, entry);
      KeyedSame(was, cells, live, at, hash);
      KeyedLess(cells, live, at, hash, key);
      live, at := live - {entry}, at - {key};
    }

    method ClearBuckets()
      requires |heads| == max + 1
      modifies `heads
      ensures |heads| == max + 1 == |old(heads)| && forall b :: 0 <= b < |heads| ==> heads[b] == None
    {
      var riter := max + 1;
      while riter > 0
        invariant 0 <= riter <= max + 1 == |heads|
        invariant forall b :: riter <= b < |heads| ==> heads[b] == None
      {
        riter := riter - 1;
        heads := heads[riter := None];
      }
    }

    /** Takes everything out, bucket after bucket from the last. */
    method Clear()
      requires Valid()
      modifies this
      ensures Valid() && Contents() == map[] && items == 0 && max == old(max)
    {
      hide Filed, Keyed, Mapped;
      if items == 0 {
        Nothing();
      } else {
        ClearAll();
      }
    }

    method ClearAll()
      requires |heads| == max + 1
      modifies this
      ensures Valid() && Contents() == map[] && items == 0 && max == old(max)
    {
      hide Filed, Keyed, Mapped;
      ClearBuckets();
      ghost var none: seq<seq<nat>> := seq(|heads|, _ => []);
      FiledEmpty(cells, heads, none);
      KeyedNone(cells, hash);
      items, chains, live, at := 0, none, {}, map[];
    }
  }

  /** The keys of the live entries are different, and `at` says which entry has which. */
  ghost predicate Keyed(cells: seq<Cell<Pair>>, live: set<nat>, at: map<nat, nat>, hash: nat -> nat) {
    && (forall x :: x in live ==> x < |cells|)
    && (forall k :: k in at ==> at[k] in live && cells[at[k]].data.key == k)
    && (forall x :: x in live ==> KeyOf(cells[x]) in at && at[KeyOf(cells[x])] == x && cells[x].hash == hash(KeyOf(cells[x])))
  }

  function KeyOf(c: Cell<Pair>): nat { c.data.key }

  ghost function Mapped(cells: seq<Cell<Pair>>, live: set<nat>, at: map<nat, nat>, hash: nat -> nat): map<nat, nat>
    requires Keyed(cells, live, at, hash)
  {
    map k | k in at :: cells[at[k]].data.value
  }

  lemma KeyedSame(cells: seq<Cell<Pair>>, cells': seq<Cell<Pair>>, live: set<nat>, at: map<nat, nat>, hash: nat -> nat)
    requires Keyed(cells, live, at, hash) && |cells'| == |cells| && forall x :: 0 <= x < |cells| ==> SameData(cells[x], cells'[x])
    ensures Keyed(cells', live, at, hash) && Mapped(cells', live, at, hash) == Mapped(cells, live, at, hash)
  {
    forall x | x in live
      ensures KeyOf(cells'[x]) == KeyOf(cells[x]) && cells'[x].hash == cells[x].hash
    {
      assert SameData(cells[x], cells'[x]);
    }
    forall k | k in at
      ensures cells'[at[k]].data == cells[at[k]].data
    {
      assert SameData(cells[at[k]], cells'[at[k]]);
    }
  }

  lemma KeyedWritten(cells: seq<Cell<Pair>>, cells': seq<Cell<Pair>>, live: set<nat>, at: map<nat, nat>, hash: nat -> nat, key: nat)
    requires Keyed(cells, live, at, hash) && key in at && |cells'| == |cells|
    requires var x := at[key]; cells' == cells[x := cells'[x]] && KeyOf(cells'[x]) == key && cells'[x].hash == cells[x].hash
    ensures Keyed(cells', live, at, hash)
    ensures Mapped(cells', live, at, hash) == Mapped(cells, live, at, hash)[key := cells'[at[key]].data.value]
  {
  }

  lemma KeyedNone(cells: seq<Cell<Pair>>, hash: nat -> nat)
    ensures Keyed(cells, {}, map[], hash) && Mapped(cells, {}, map[], hash) == map[]
  {
  }

  lemma KeyedMore(cells: seq<Cell<Pair>>, cells': seq<Cell<Pair>>, live: set<nat>, at: map<nat, nat>, hash: nat -> nat,
                  key: nat, entry: nat)
    requires Keyed(cells, live, at, hash) && key !in at && entry == |cells| < |cells'| && cells' == cells + [cells'[entry]]
    requires cells'[entry].data.key == key && cells'[entry].hash == hash(key)
    ensures Keyed(cells', live + {entry}, at[key := entry], hash)
    ensures Mapped(cells', live + {entry}, at[key := entry], hash) == Mapped(cells, live, at, hash)[key := cells'[entry].data.value]
  {
  }

  lemma KeyedAt(cells: seq<Cell<Pair>>, live: set<nat>, at: map<nat, nat>, hash: nat -> nat, key: nat)
    requires Keyed(cells, live, at, hash) && key in at
    ensures at[key] in live && at[key] < |cells|
  {
  }

  lemma KeyedLess(cells: seq<Cell<Pair>>, live: set<nat>, at: map<nat, nat>, hash: nat -> nat, key: nat)
    requires Keyed(cells, live, at, hash) && key in at
    ensures Keyed(cells, live - {at[key]}, at - {key}, hash) && |at - {key}| <= |at|
    ensures Mapped(cells, live - {at[key]}, at - {key}, hash) == Mapped(cells, live, at, hash) - {key}
  {
    assert (at - {key}).Keys <= at.Keys;
    assert at == (at - {key})[key := at[key]];
  }

  lemma MappedLess(cells: seq<Cell<Pair>>, live: set<nat>, at: map<nat, nat>, hash: nat -> nat, key: nat)
    requires Keyed(cells, live, at, hash) && key !in at
    ensures Mapped(cells, live, at, hash) - {key} == Mapped(cells, live, at, hash)
  {
  }

  lemma FiledInside(cells: seq<Cell<Pair>>, heads: seq<Option<nat>>, chains: seq<seq<nat>>, live: set<nat>)
    requires Filed(cells, heads, chains, live)
    ensures |cells| !in live && forall x :: x in live ==> x < |cells|
  {
  }

  lemma FiledEmpty(cells: seq<Cell<Pair>>, heads: seq<Option<nat>>, chains: seq<seq<nat>>)
    requires |heads| == |chains| > 0
    requires forall b :: 0 <= b < |heads| ==> heads[b] == None && chains[b] == []
    ensures Filed(cells, heads, chains, {})
  {
    hide Linked, Distinct, Slot;
    EmptyChain(cells);
  }

  // ----- the iterator -----

  /** The entries in buckets from b on, in order. */
  function Flat(chains: seq<seq<nat>>, b: nat): seq<nat>
    decreases |chains| - b
  {
    if b >= |chains| then [] else chains[b] + Flat(chains, b + 1)
  }

  class Iterator {
    const table: Table
    var bucket: nat
    var cur: Option<nat>

    ghost var k: nat

    ghost predicate Valid()
      reads this, table
    {
      && table.Valid()
      && (cur.Some? ==> 0 < bucket <= |table.chains| && k < |table.chains[bucket - 1]| && cur == Some(table.chains[bucket - 1][k]))
    }

    /** The entries still to be returned. */
    ghost function Left(): seq<nat>
      requires Valid()
      reads this, table
    {
      (if cur.Some? then table.chains[bucket - 1][k..] else []) + Flat(table.chains, bucket)
    }

    constructor Make(table: Table)
      requires table.Valid()
      ensures this.table == table && bucket == 0 && cur == None
    {
      this.table := table;
      bucket, cur, k := 0, None, 0;
    }

    /** Goes to the first entry.  The source asserts that there is one if the table counts any; `ok` says
        whether that holds. */
    method Start() returns (ok: bool)
      requires table.Valid() && bucket == 0 && cur.None?
      modifies this
      ensures Valid() && Left() == Flat(table.chains, 0) && (cur.None? ==> Left() == [])
      ensures ok <==> table.items == 0 || table.at != map[]
    {
      hide Filed, Keyed;
      FiledSize(table.cells, table.heads, table.chains, table.live);
      if table.items == 0 {
        bucket := INT_MAX;
        table.Nothing();
        NothingFlat(table, 0);
        NothingFlat(table, INT_MAX);
        return true;
      }
      NextElem();
      ok := cur.Some?;
      AllFlat(table);
    }

    /** Moves on to the next entry, if there is one. */
    method NextElem()
      requires Valid()
      modifies `bucket, `cur, `k
      ensures Valid() && (cur.None? ==> Left() == [])
      ensures Left() == if old(cur).Some? then old(Left())[1..] else old(Left())
    {
      hide Filed, Keyed, Slot;
      if cur.Some? {
        FiledSize(table.cells, table.heads, table.chains, table.live);
        BucketNext(table.cells, table.heads, table.chains, table.live, bucket - 1, k);
        Onwards(table.chains[bucket - 1], k, Flat(table.chains, bucket));
        if table.cells[cur.value].next.Some? {
          cur, k := table.cells[cur.value].next, k + 1;
          return;
        }
      }
      NextBucket();
    }

    /** Goes to the first entry of the next bucket that has one. */
    method NextBucket()
      requires table.Valid()
      modifies `bucket, `cur, `k
      ensures Valid() && (cur.None? ==> Left() == [])
      ensures Left() == Flat(table.chains, old(bucket))
    {
      hide Filed, Keyed, Slot;
      FiledSize(table.cells, table.heads, table.chains, table.live);
      ghost var all := Flat(table.chains, bucket);
      cur := None;
      while cur.None? && bucket <= table.max
        invariant Valid() && Left() == all
        decreases table.max + 1 - bucket, cur.None?
      {
        BucketStart(table.cells, table.heads, table.chains, table.live, bucket);
        cur, bucket, k := table.heads[bucket], bucket + 1, 0;
      }
    }

    /** The entry the iterator stands at, or none at the end. */
    method Next() returns (r: Option<nat>)
      requires Valid() && (cur.None? ==> Left() == [])
      modifies `bucket, `cur, `k
      ensures Valid() && (cur.None? ==> Left() == [])
      ensures r == First(old(Left())) && Left() == if r.Some? then old(Left())[1..] else []
    {
      r := cur;
      NextElem();
    }
  }

  const INT_MAX := 0x7FFF_FFFF

  lemma {:induction false} FlatMembers(cells: seq<Cell<Pair>>, heads: seq<Option<nat>>, chains: seq<seq<nat>>, live: set<nat>, b: nat)
    requires Filed(cells, heads, chains, live)
    ensures Distinct(Flat(chains, b))
    ensures forall x :: x in Flat(chains, b) <==> x in live && x < |cells| && b <= Slot(cells[x].hash, |heads|)
    decreases |chains| - b
  {
    hide Filed, Slot;
    FiledSize(cells, heads, chains, live);
    FiledInside(cells, heads, chains, live);
    if b < |chains| {
      FlatMembers(cells, heads, chains, live, b + 1);
      FlatBucket(cells, heads, chains, live, b);
      DistinctJoin(chains[b], Flat(chains, b + 1));
    }
  }

  lemma FlatBucket(cells: seq<Cell<Pair>>, heads: seq<Option<nat>>, chains: seq<seq<nat>>, live: set<nat>, b: nat)
    requires Filed(cells, heads, chains, live) && b < |chains|
    ensures Distinct(chains[b])
    ensures forall x :: x in chains[b] <==> x in live && x < |cells| && Slot(cells[x].hash, |heads|) == b
  {
    hide Slot;
    assert InBucket(cells, heads[b], chains[b], b, |chains|, live);
  }

  lemma DistinctJoin(a: seq<nat>, b: seq<nat>)
    requires Distinct(a) && Distinct(b) && forall x :: x in a ==> x !in b
    ensures Distinct(a + b)
  {
    forall j, k | 0 <= j < k < |a + b|
      ensures (a + b)[j] != (a + b)[k]
    {
      if k < |a| {
        DistinctAt(a, j, k);
      } else if j >= |a| {
        DistinctAt(b, j - |a|, k - |a|);
      } else {
        assert (a + b)[j] in a && (a + b)[k] in b;
      }
    }
  }

  /** One step along a chain. */
  lemma Onwards(chain: seq<nat>, k: nat, rest: seq<nat>)
    requires k < |chain|
    ensures (chain[k..] + rest)[1..] == chain[k + 1..] + rest
    ensures k + 1 == |chain| ==> chain[k + 1..] + rest == rest
  {
  }

  lemma Member(s: seq<nat>)
    ensures s != [] ==> exists x :: x in s
  {
    assert s != [] ==> s[0] in s;
  }

  lemma NothingFlat(table: Table, b: nat)
    requires table.Valid() && table.live == {}
    ensures Flat(table.chains, b) == []
  {
    hide Filed, Slot;
    FlatMembers(table.cells, table.heads, table.chains, table.live, b);
    Member(Flat(table.chains, b));
  }

  lemma AllFlat(table: Table)
    requires table.Valid()
    ensures forall x :: x in Flat(table.chains, 0) <==> x in table.live
    ensures Flat(table.chains, 0) == [] <==> table.at == map[]
  {
    hide Filed, Slot;
    FiledInside(table.cells, table.heads, table.chains, table.live);
    FlatMembers(table.cells, table.heads, table.chains, table.live, 0);
    var all := Flat(table.chains, 0);
    if all != [] {
      assert all[0] in table.live;
    }
    if k :| k in table.at {
      assert table.at[k] in all;
    }
  }

  /** Walking over an unchanged table returns the entry of each key once, and stops. */
  method Walk(table: Table) returns (ok: bool, keys: seq<nat>)
    requires table.Valid()
    ensures table.Valid() && (ok <==> table.items == 0 || table.Contents() != map[])
    ensures ok ==> Distinct(keys) && forall x :: x in keys <==> x in table.Contents()
  {
    hide Filed, Distinct, Slot, Keyed, Mapped, Flat, Table.Valid, Iterator.Valid, Iterator.Left;
    MappedEmpty(table);
    var it := new Iterator.Make(table);
    ok := it.Start();
    keys := [];
    if !ok {
      return;
    }
    ghost var all, n := Flat(table.chains, 0), 0;
    AllFlat(table);
    var r := it.Next();
    while r.Some?
      invariant fresh(it) && it.table == table && it.Valid() && (it.cur.None? ==> it.Left() == [])
      invariant 0 <= n <= |all| && |keys| == n
      invariant if n < |all| then r == Some(all[n]) && it.Left() == all[n + 1..] else r == None
      invariant forall j :: 0 <= j < n ==> all[j] < |table.cells| && keys[j] == KeyOf(table.cells[all[j]])
      decreases |all| - n
    {
      EntryInside(table, all, n);
      keys := keys + [KeyOf(table.cells[r.value])];
      n := n + 1;
      r := it.Next();
    }
    WalkedKeys(table, all, keys);
  }

  lemma MappedEmpty(table: Table)
    requires table.Valid()
    ensures table.at == map[] <==> table.Contents() == map[]
  {
    hide Filed;
    var all := table.Contents();
    assert all.Keys == table.at.Keys;
    assert all == map[] <==> all.Keys == {};
    assert table.at == map[] <==> table.at.Keys == {};
  }

  lemma EntryInside(table: Table, all: seq<nat>, n: nat)
    requires table.Valid() && all == Flat(table.chains, 0) && n < |all|
    ensures all[n] < |table.cells|
  {
    hide Filed, Slot, Flat;
    AllFlat(table);
    assert all[n] in all;
    FiledInside(table.cells, table.heads, table.chains, table.live);
  }

  lemma WalkedKeys(table: Table, all: seq<nat>, keys: seq<nat>)
    requires table.Valid() && all == Flat(table.chains, 0) && |keys| == |all|
    requires forall j :: 0 <= j < |all| ==> all[j] < |table.cells| && keys[j] == KeyOf(table.cells[all[j]])
    ensures Distinct(keys) && forall x :: x in keys <==> x in table.Contents()
  {
    hide Filed, Slot;
    FlatMembers(table.cells, table.heads, table.chains, table.live, 0);
    AllFlat(table);
    forall i, j | 0 <= i < j < |keys|
      ensures keys[i] != keys[j]
    {
      assert all[i] in all && all[j] in all;
    }
    forall x | x in table.at
      ensures x in keys
    {
      assert table.at[x] in all;
    }
    forall x | x in keys
      ensures x in table.at
    {
      var j :| 0 <= j < |keys| && keys[j] == x;
      assert all[j] in all;
    }
  }

  /** One entry stored and deleted again: the table is empty, but still counts an item, and the assertion of
      the iterator fails. */
  method EmptiedTable(hash: nat -> nat, key: nat, value: nat) returns (ok: bool, keys: seq<nat>)
    ensures !ok
  {
    hide Filed, Keyed;
    var table := new Table(hash, 9);
    var e := table.Store(key, value);
    assert key in table.at;
    table.Delete(key);
    ok, keys := Walk(table);
  }
}
