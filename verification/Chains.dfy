/** Hash buckets whose entries are threaded into chains: what holds of the links, and the operations that
    rewrite them in place.  Cells are never moved; `live` are those that are filed in some bucket. */
module Chains {
  import opened Varint

  datatype Cell<D> = Cell(next: Option<nat>, hash: nat, data: D)

  /** How many buckets a table begins with. */
  function PowerOfTwo(e: nat): (n: nat)
    ensures n > 0
  {
    if e == 0 then 1 else 2 * PowerOfTwo(e - 1)
  }

  ghost predicate Inside<D>(live: set<nat>, cells: seq<Cell<D>>) {
    forall x :: x in live ==> x < |cells|
  }

  // ----- chains -----

  /** The cell behind the k-th of a chain. */
  function After(chain: seq<nat>, k: nat): Option<nat> {
    if k + 1 < |chain| then Some(chain[k + 1]) else None
  }

  /** Following the links from `head` visits exactly the cells of `chain`, in order. */
  predicate Linked<D>(cells: seq<Cell<D>>, head: Option<nat>, chain: seq<nat>) {
    && head == (if chain == [] then None else Some(chain[0]))
    && (forall k :: 0 <= k < |chain| ==> chain[k] < |cells|)
    && forall k :: 0 <= k < |chain| ==> cells[chain[k]].next == After(chain, k)
  }

  predicate Distinct(chain: seq<nat>) {
    forall j, k :: 0 <= j < k < |chain| ==> chain[j] != chain[k]
  }

  /** A chain is not affected by what happens to other cells. */
  lemma LinkedKept<D>(cells: seq<Cell<D>>, cells': seq<Cell<D>>, head: Option<nat>, chain: seq<nat>)
    requires Linked(cells, head, chain)
    requires forall k :: 0 <= k < |chain| ==> chain[k] < |cells'| && cells'[chain[k]].next == cells[chain[k]].next
    ensures Linked(cells', head, chain)
  {
  }

  function Without(chain: seq<nat>, k: nat): seq<nat>
    requires k < |chain|
  {
    chain[..k] + chain[k + 1..]
  }

  lemma WithoutAt(chain: seq<nat>, k: nat)
    requires k < |chain|
    ensures |Without(chain, k)| == |chain| - 1
    ensures forall j :: 0 <= j < |chain| - 1 ==> Without(chain, k)[j] == chain[if j < k then j else j + 1]
    ensures Distinct(chain) ==> Distinct(Without(chain, k)) && forall x :: x in Without(chain, k) <==> x in chain && x != chain[k]
  {
    var rest := Without(chain, k);
    if Distinct(chain) {
      forall x | x in chain && x != chain[k]
        ensures x in rest
      {
        var j :| 0 <= j < |chain| && chain[j] == x;
        assert rest[if j < k then j else j - 1] == x;
      }
    }
  }

  /** Taking the first cell out of a chain. */
  lemma LinkedTail<D>(cells: seq<Cell<D>>, head: Option<nat>, chain: seq<nat>)
    requires Linked(cells, head, chain) && chain != []
    ensures Linked(cells, cells[chain[0]].next, chain[1..])
  {
    assert cells[chain[0]].next == After(chain, 0);
    forall j | 0 <= j < |chain| - 1
      ensures cells[chain[1..][j]].next == After(chain[1..], j)
    {
      assert cells[chain[j + 1]].next == After(chain, j + 1);
    }
  }

  /** Taking a later one out, by giving its link to the one before. */
  lemma LinkedWithout<D>(cells: seq<Cell<D>>, head: Option<nat>, chain: seq<nat>, k: nat)
    requires Linked(cells, head, chain) && Distinct(chain) && 0 < k < |chain|
    ensures Linked(cells[chain[k - 1] := cells[chain[k - 1]].(next := cells[chain[k]].next)], head, Without(chain, k))
  {
    hide Distinct, Without;
    WithoutAt(chain, k);
    var rest := Without(chain, k);
    var cells' := cells[chain[k - 1] := cells[chain[k - 1]].(next := cells[chain[k]].next)];
    assert cells[chain[k]].next == After(chain, k);
    forall j | 0 <= j < |rest|
      ensures rest[j] < |cells'| && cells'[rest[j]].next == After(rest, j)
    {
      if j == k - 1 {
        assert cells'[rest[j]].next == After(chain, k) == After(rest, j);
      } else {
        var i := if j < k then j else j + 1;
        DistinctAt(chain, i, k - 1);
        assert cells'[rest[j]].next == cells[chain[i]].next == After(chain, i) == After(rest, j);
      }
    }
  }

  lemma DistinctAt(chain: seq<nat>, i: nat, j: nat)
    requires Distinct(chain) && i < |chain| && j < |chain| && i != j
    ensures chain[i] != chain[j]
  {
  }

  /** Putting a cell in front of a chain. */
  lemma LinkedFront<D>(cells: seq<Cell<D>>, head: Option<nat>, chain: seq<nat>, x: nat)
    requires Linked(cells, head, chain) && Distinct(chain) && x !in chain && x < |cells| && cells[x].next == head
    ensures Linked(cells, Some(x), [x] + chain) && Distinct([x] + chain)
  {
  }

  // ----- buckets -----

  /** The bucket of a hash, among m; the source masks with m - 1, where m is a power of two. */
  function Slot(h: nat, m: nat): (b: nat)
    requires m > 0
    ensures b < m
  {
    h % m
  }

  /** The chain of bucket b, of n. */
  predicate InBucket<D>(cells: seq<Cell<D>>, head: Option<nat>, chain: seq<nat>, b: nat, n: nat, live: set<nat>)
    requires n > 0
  {
    && Linked(cells, head, chain) && Distinct(chain)
    && forall k :: 0 <= k < |chain| ==> chain[k] in live && Slot(cells[chain[k]].hash, n) == b
  }

  /** The live cells are all in the chains of their buckets, and nothing else is. */
  ghost predicate Filed<D>(cells: seq<Cell<D>>, heads: seq<Option<nat>>, chains: seq<seq<nat>>, live: set<nat>) {
    && |heads| == |chains| > 0 && Inside(live, cells)
    && (forall b :: 0 <= b < |chains| ==> InBucket(cells, heads[b], chains[b], b, |chains|, live))
    && (forall i :: i in live ==> i in chains[Slot(cells[i].hash, |chains|)])
  }

  predicate SameLinks<D>(c: Cell<D>, c': Cell<D>) { c'.next == c.next && c'.hash == c.hash }

  lemma BucketKept<D>(cells: seq<Cell<D>>, cells': seq<Cell<D>>, head: Option<nat>, chain: seq<nat>, b: nat, n: nat, live: set<nat>, live': set<nat>)
    requires n > 0 && InBucket(cells, head, chain, b, n, live) && live <= live'
    requires forall k :: 0 <= k < |chain| ==> chain[k] < |cells'| && SameLinks(cells[chain[k]], cells'[chain[k]])
    ensures InBucket(cells', head, chain, b, n, live')
  {
    LinkedKept(cells, cells', head, chain);
  }

  lemma BucketFront<D>(cells: seq<Cell<D>>, head: Option<nat>, chain: seq<nat>, b: nat, n: nat, live: set<nat>, at: nat)
    requires n > 0 && InBucket(cells, head, chain, b, n, live) && at < |cells| && at !in live
    requires cells[at].next == head && Slot(cells[at].hash, n) == b
    ensures InBucket(cells, Some(at), [at] + chain, b, n, live + {at})
  {
    LinkedFront(cells, head, chain, at);
  }

  /** What a cell holds does not matter for where it is filed. */
  lemma FiledSame<D>(cells: seq<Cell<D>>, cells': seq<Cell<D>>, heads: seq<Option<nat>>, chains: seq<seq<nat>>, live: set<nat>)
    requires Filed(cells, heads, chains, live) && |cells'| >= |cells|
    requires forall i :: 0 <= i < |cells| ==> SameLinks(cells[i], cells'[i])
    ensures Filed(cells', heads, chains, live)
  {
    hide InBucket;
    forall b | 0 <= b < |chains|
      ensures InBucket(cells', heads[b], chains[b], b, |chains|, live)
    {
      BucketRange(cells, heads[b], chains[b], b, |chains|, live);
      BucketKept(cells, cells', heads[b], chains[b], b, |chains|, live, live);
    }
    forall i | i in live
      ensures i in chains[Slot(cells'[i].hash, |chains|)]
    {
      assert SameLinks(cells[i], cells'[i]);
    }
  }

  lemma BucketRange<D>(cells: seq<Cell<D>>, head: Option<nat>, chain: seq<nat>, b: nat, n: nat, live: set<nat>)
    requires n > 0 && InBucket(cells, head, chain, b, n, live)
    ensures forall k :: 0 <= k < |chain| ==> chain[k] in live && chain[k] < |cells|
  {
  }

  /** A new cell at the front of the chain of its bucket. */
  lemma FiledMore<D>(cells: seq<Cell<D>>, cells': seq<Cell<D>>, heads: seq<Option<nat>>, chains: seq<seq<nat>>, live: set<nat>,
                     at: nat, b: nat)
    requires Filed(cells, heads, chains, live) && at < |cells'| && |cells| <= |cells'| && b < |chains| && at !in live
    requires forall x :: 0 <= x < |cells| && x != at ==> cells'[x] == cells[x]
    requires cells'[at].next == heads[b] && Slot(cells'[at].hash, |chains|) == b
    ensures Filed(cells', heads[b := Some(at)], chains[b := [at] + chains[b]], live + {at})
  {
    hide InBucket;
    var n, chains' := |chains|, chains[b := [at] + chains[b]];
    forall c | 0 <= c < n
      ensures InBucket(cells', heads[b := Some(at)][c], chains'[c], c, n, live + {at})
    {
      BucketRange(cells, heads[c], chains[c], c, n, live);
      BucketKept(cells, cells', heads[c], chains[c], c, n, live, live);
      BucketKept(cells, cells', heads[c], chains[c], c, n, live, live + {at});
      if c == b {
        BucketFront(cells', heads[b], chains[b], b, n, live, at);
      }
    }
    forall i | i in live + {at}
      ensures i in chains'[Slot(cells'[i].hash, n)]
    {
      if i != at {
        assert i in chains[Slot(cells[i].hash, n)];
      }
    }
  }

  lemma FiledSize<D>(cells: seq<Cell<D>>, heads: seq<Option<nat>>, chains: seq<seq<nat>>, live: set<nat>)
    requires Filed(cells, heads, chains, live)
    ensures |heads| == |chains| > 0
  {
  }

  /** Walking along the chain of bucket b. */
  lemma BucketStart<D>(cells: seq<Cell<D>>, heads: seq<Option<nat>>, chains: seq<seq<nat>>, live: set<nat>, b: nat)
    requires Filed(cells, heads, chains, live) && b < |heads|
    ensures heads[b] == (if chains[b] == [] then None else Some(chains[b][0]))
    ensures forall x :: x in chains[b] ==> x in live && x < |cells|
  {
    hide Slot;
    assert InBucket(cells, heads[b], chains[b], b, |chains|, live);
  }

  lemma BucketNext<D>(cells: seq<Cell<D>>, heads: seq<Option<nat>>, chains: seq<seq<nat>>, live: set<nat>, b: nat, k: nat)
    requires Filed(cells, heads, chains, live) && b < |heads| == |chains| && k < |chains[b]|
    ensures chains[b][k] < |cells| && chains[b][k] in live && cells[chains[b][k]].next == After(chains[b], k)
    ensures Slot(cells[chains[b][k]].hash, |heads|) == b
  {
    hide Slot;
    assert InBucket(cells, heads[b], chains[b], b, |chains|, live);
  }

  /** A bucket is in use exactly when a live cell has its hash. */
  lemma BucketUsed<D>(cells: seq<Cell<D>>, heads: seq<Option<nat>>, chains: seq<seq<nat>>, live: set<nat>, b: nat)
    requires Filed(cells, heads, chains, live) && b < |heads|
    ensures Inside(live, cells) && (heads[b].Some? <==> exists x :: x in live && cells[x].hash % |heads| == b)
  {
    BucketStart(cells, heads, chains, live, b);
    if chains[b] != [] {
      BucketNext(cells, heads, chains, live, b, 0);
      assert chains[b][0] in live && cells[chains[b][0]].hash % |heads| == b;
    }
    hide Inside;
    forall x | x in live && cells[x].hash % |heads| == b
      ensures chains[b] != []
    {
      InItsBucket(cells, heads, chains, live, x);
    }
  }

  lemma InItsBucket<D>(cells: seq<Cell<D>>, heads: seq<Option<nat>>, chains: seq<seq<nat>>, live: set<nat>, x: nat)
    requires Filed(cells, heads, chains, live) && x in live
    ensures x < |cells| && |chains| == |heads| > 0 && x in chains[Slot(cells[x].hash, |heads|)]
  {
    hide Slot;
  }

  // ----- splitting chains -----

  ghost predicate SameData<D>(c: Cell<D>, c': Cell<D>) { c'.hash == c.hash && c'.data == c.data }

  function First(chain: seq<nat>): Option<nat> { if chain == [] then None else Some(chain[0]) }

  function Last(chain: seq<nat>): Option<nat> { if chain == [] then None else Some(chain[|chain| - 1]) }

  function Lower(b: nat, n: nat): nat { if b < n then b else b - n }

  /** The modulus by which bucket b is filled when those below i have been split. */
  function Modulus(b: nat, n: nat, i: nat): (m: nat)
    requires n > 0
    ensures m > 0
  {
    if Lower(b, n) < i then 2 * n else n
  }

  /** The bucket an entry is in when those below i have been split. */
  function MixedSlot(h: nat, n: nat, i: nat): (b: nat)
    requires n > 0
    ensures b < 2 * n
  {
    if Slot(h, n) < i then Slot(h, 2 * n) else Slot(h, n)
  }

  /** Doubling the number of buckets leaves a hash where it was, or moves it up by the old number. */
  lemma SlotSplit(h: nat, n: nat)
    requires 0 < n
    ensures Slot(h, 2 * n) == Slot(h, n) || Slot(h, 2 * n) == Slot(h, n) + n
  {
    var q, i := h / n, h % n;
    var r := q / 2;
    assert h == q * n + i;
    if q % 2 == 0 {
      assert h == r * (2 * n) + i;
      ModUnique(h, 2 * n, r, i);
    } else {
      assert q == 2 * r + 1;
      assert h == r * (2 * n) + (i + n);
      ModUnique(h, 2 * n, r, i + n);
    }
  }

  lemma ModUnique(h: nat, m: nat, q: nat, r: nat)
    requires m > 0 && r < m && h == q * m + r
    ensures h % m == r
  {
    var d, s := h / m, h % m;
    assert h == d * m + s;
    assert (d - q) * m == r - s;
    Small(d - q, m);
  }

  lemma Small(x: int, m: int)
    requires m > 0 && -m < x * m < m
    ensures x == 0
  {
    assert x >= 1 ==> x * m >= m;
    assert x <= -1 ==> x * m <= -m;
  }

  /** The buckets below i, of n, have been split into b and b + n. */
  ghost predicate Mixed<D>(cells: seq<Cell<D>>, heads: seq<Option<nat>>, chains: seq<seq<nat>>, n: nat, i: nat, live: set<nat>) {
    && n > 0 && |heads| == |chains| == 2 * n && Inside(live, cells)
    && (forall b :: 0 <= b < 2 * n ==> InBucket(cells, heads[b], chains[b], b, Modulus(b, n, i), live))
    && (forall b :: n + i <= b < 2 * n ==> chains[b] == [])
    && (forall x :: x in live ==> x in chains[MixedSlot(cells[x].hash, n, i)])
  }

  /** All buckets but i and i + n. */
  ghost predicate Others<D>(cells: seq<Cell<D>>, heads: seq<Option<nat>>, chains: seq<seq<nat>>, n: nat, i: nat, live: set<nat>) {
    && n > 0 && |heads| == |chains| == 2 * n && Inside(live, cells)
    && forall b :: 0 <= b < 2 * n && b != i && b != i + n ==> InBucket(cells, heads[b], chains[b], b, Modulus(b, n, i), live)
  }

  predicate Hashed<D>(cells: seq<Cell<D>>, xs: seq<nat>, m: nat, b: nat)
    requires m > 0
  {
    forall k :: 0 <= k < |xs| ==> xs[k] < |cells| && Slot(cells[xs[k]].hash, m) == b
  }

  /** A chain being split: ks stays, rs is still to be looked at, ms has been moved. */
  ghost predicate Halves<D>(cells: seq<Cell<D>>, low: Option<nat>, high: Option<nat>, ks: seq<nat>, rs: seq<nat>, ms: seq<nat>,
                         n: nat, i: nat, all: seq<nat>) {
    && n > 0 && Linked(cells, low, ks + rs) && Linked(cells, high, ms) && Distinct(ks + rs) && Distinct(ms)
    && Hashed(cells, ks, 2 * n, i) && Hashed(cells, ms, 2 * n, i + n) && Hashed(cells, rs, n, i)
    && Apart(ks + rs, ms, all)
  }

  /** Two chains without common cells, and the cells of both. */
  ghost predicate Apart(c: seq<nat>, ms: seq<nat>, all: seq<nat>) {
    && (forall x :: x in ms ==> x !in c)
    && (forall x :: x in all <==> x in c || x in ms)
  }

  lemma ApartMoved(c: seq<nat>, ms: seq<nat>, all: seq<nat>, k: nat)
    requires Apart(c, ms, all) && Distinct(c) && k < |c|
    ensures Apart(Without(c, k), [c[k]] + ms, all)
  {
    WithoutAt(c, k);
    hide Distinct;
    var c', ms' := Without(c, k), [c[k]] + ms;
    forall x
      ensures x in all <==> x in c' || x in ms'
    {
      assert x in ms' <==> x == c[k] || x in ms;
    }
  }

  lemma GrowStart<D>(cells: seq<Cell<D>>, heads: seq<Option<nat>>, chains: seq<seq<nat>>, live: set<nat>)
    requires Filed(cells, heads, chains, live)
    ensures var n := |heads|; Mixed(cells, heads + seq(n, _ => None), chains + seq(n, _ => []), n, 0, live)
  {
    var n := |heads|;
    var chains' := chains + seq(n, _ => []);
    hide Linked, Slot;
    forall x | x in live
      ensures x in chains'[MixedSlot(cells[x].hash, n, 0)]
    {
      assert x in chains[Slot(cells[x].hash, n)];
    }
    forall b | 0 <= b < 2 * n
      ensures InBucket(cells, (heads + seq(n, _ => None))[b], chains'[b], b, Modulus(b, n, 0), live)
    {
      if b >= n {
        EmptyChain(cells);
      }
    }
  }

  lemma EmptyChain<D>(cells: seq<Cell<D>>)
    ensures Linked(cells, None, []) && Distinct([])
  {
  }

  lemma GrowEnd<D>(cells: seq<Cell<D>>, heads: seq<Option<nat>>, chains: seq<seq<nat>>, n: nat, live: set<nat>)
    requires Mixed(cells, heads, chains, n, n, live)
    ensures Filed(cells, heads, chains, live) && |heads| == 2 * n
  {
    hide InBucket, Slot;
    forall x | x in live
      ensures x in chains[Slot(cells[x].hash, 2 * n)]
    {
      assert x in chains[MixedSlot(cells[x].hash, n, n)];
    }
    forall b | 0 <= b < 2 * n
      ensures InBucket(cells, heads[b], chains[b], b, 2 * n, live)
    {
      assert Modulus(b, n, n) == 2 * n;
    }
  }

  lemma SplitStart<D>(cells: seq<Cell<D>>, heads: seq<Option<nat>>, chains: seq<seq<nat>>, n: nat, i: nat, live: set<nat>)
    requires i < n && Mixed(cells, heads, chains, n, i, live)
    ensures Halves(cells, heads[i], heads[i + n], [], chains[i], [], n, i, chains[i])
    ensures heads[i] == First(chains[i]) && Others(cells, heads, chains, n, i, live)
  {
    assert InBucket(cells, heads[i], chains[i], i, Modulus(i, n, i), live);
    assert InBucket(cells, heads[i + n], chains[i + n], i + n, Modulus(i + n, n, i), live);
    HalvesStart(cells, heads[i], heads[i + n], chains[i], n, i, live);
    hide InBucket, Halves;
  }

  lemma HalvesStart<D>(cells: seq<Cell<D>>, low: Option<nat>, high: Option<nat>, chain: seq<nat>, n: nat, i: nat, live: set<nat>)
    requires i < n && Inside(live, cells) && InBucket(cells, low, chain, i, n, live) && high == None
    ensures Halves(cells, low, high, [], chain, [], n, i, chain) && low == First(chain)
  {
    hide Slot, Linked, Distinct;
    assert [] + chain == chain;
    LinkedHead(cells, low, chain);
    EmptyChain(cells);
    Alone(chain);
    hide Apart;
    forall k | 0 <= k < |chain|
      ensures chain[k] < |cells|
    {
    }
  }

  lemma LinkedHead<D>(cells: seq<Cell<D>>, head: Option<nat>, chain: seq<nat>)
    requires Linked(cells, head, chain)
    ensures head == First(chain)
  {
  }

  lemma Alone(chain: seq<nat>)
    ensures Apart(chain, [], chain)
  {
  }

  lemma MixedSize<D>(cells: seq<Cell<D>>, heads: seq<Option<nat>>, chains: seq<seq<nat>>, n: nat, i: nat, live: set<nat>)
    requires Mixed(cells, heads, chains, n, i, live)
    ensures |heads| == |chains| == 2 * n && n > 0 && Inside(live, cells)
  {
  }

  lemma HalvesRange<D>(cells: seq<Cell<D>>, low: Option<nat>, high: Option<nat>, ks: seq<nat>, rs: seq<nat>, ms: seq<nat>,
                    n: nat, i: nat, all: seq<nat>)
    requires Halves(cells, low, high, ks, rs, ms, n, i, all) && i < n
    ensures forall x :: x in ks || x in rs ==> x in ks + rs && x < |cells|
    ensures ks == [] ==> low == First(rs)
    ensures ks != [] ==> ks[|ks| - 1] < |cells| && cells[ks[|ks| - 1]].next == First(rs) && Slot(cells[ks[|ks| - 1]].hash, n) == i
    ensures rs != [] ==> rs[0] < |cells| && cells[rs[0]].next == First(rs[1..]) && Slot(cells[rs[0]].hash, n) == i
  {
    hide Slot;
    var c := ks + rs;
    if ks != [] {
      assert cells[c[|ks| - 1]].next == After(c, |ks| - 1);
      SlotSplit(cells[ks[|ks| - 1]].hash, n);
    }
    if rs != [] {
      assert c[|ks|] == rs[0];
      assert cells[c[|ks|]].next == After(c, |ks|);
    }
  }

  lemma HalvesStayed<D>(cells: seq<Cell<D>>, low: Option<nat>, high: Option<nat>, ks: seq<nat>, rs: seq<nat>, ms: seq<nat>,
                     n: nat, i: nat, all: seq<nat>)
    requires Halves(cells, low, high, ks, rs, ms, n, i, all) && rs != []
    requires rs[0] < |cells| && Slot(cells[rs[0]].hash, 2 * n) == i
    ensures Halves(cells, low, high, ks + [rs[0]], rs[1..], ms, n, i, all)
  {
    hide Linked, Distinct, Slot, Apart, Hashed;
    Regrouped(ks, rs);
    HashedTail(cells, rs, n, i);
    HashedMore(cells, ks, rs[0], 2 * n, i);
  }

  lemma Regrouped(ks: seq<nat>, rs: seq<nat>)
    requires rs != []
    ensures (ks + [rs[0]]) + rs[1..] == ks + rs
  {
  }

  lemma HashedTail<D>(cells: seq<Cell<D>>, xs: seq<nat>, m: nat, b: nat)
    requires m > 0 && Hashed(cells, xs, m, b) && xs != []
    ensures Hashed(cells, xs[1..], m, b)
  {
    hide Slot;
  }

  lemma HashedMore<D>(cells: seq<Cell<D>>, xs: seq<nat>, e: nat, m: nat, b: nat)
    requires m > 0 && Hashed(cells, xs, m, b) && e < |cells| && Slot(cells[e].hash, m) == b
    ensures Hashed(cells, xs + [e], m, b)
  {
    hide Slot;
  }

  /** The cell is unlinked from the chain of bucket i and put in front of that of bucket i + n. */
  lemma HalvesMoved<D>(cells: seq<Cell<D>>, cells': seq<Cell<D>>, low: Option<nat>, low': Option<nat>, high: Option<nat>,
                    ks: seq<nat>, rs: seq<nat>, ms: seq<nat>, n: nat, i: nat, all: seq<nat>)
    requires Halves(cells, low, high, ks, rs, ms, n, i, all) && rs != []
    requires rs[0] < |cells| && Slot(cells[rs[0]].hash, 2 * n) == i + n
    requires ks != [] ==> ks[|ks| - 1] < |cells|
    requires var e := rs[0];
             cells' == Unlinked(cells, ks, e)[e := cells[e].(next := high)] && low' == (if ks == [] then cells[e].next else low)
    ensures Halves(cells', low', Some(rs[0]), ks, rs[1..], [rs[0]] + ms, n, i, all)
  {
    hide Slot, Linked, Distinct, Unlinked, Hashed, Apart;
    var e, c, k := rs[0], ks + rs, |ks|;
    assert c[k] == e && ks + rs[1..] == Without(c, k);
    WithoutAt(c, k);
    MovedLow(cells, low, ks, rs);
    ApartAt(c, ms, all, k);
    MovedHigh(cells, cells', high, ks, ms, e, c);
    MovedHashes(cells, cells', ks, rs, ms, n, i) by {
      UnlinkedHashes(cells, ks, e);
    }
    MovedRest(cells, cells', ks, rs, high, low');
    ApartMoved(c, ms, all, k);
  }

  lemma UnlinkedHashes<D>(cells: seq<Cell<D>>, ks: seq<nat>, e: nat)
    requires e < |cells| && (ks != [] ==> ks[|ks| - 1] < |cells|)
    ensures forall x :: 0 <= x < |cells| ==> Unlinked(cells, ks, e)[x].hash == cells[x].hash
  {
  }

  lemma ApartAt(c: seq<nat>, ms: seq<nat>, all: seq<nat>, k: nat)
    requires Apart(c, ms, all) && k < |c|
    ensures (forall x :: x in ms ==> x !in c) && c[k] in c && (k > 0 ==> c[k - 1] in c)
  {
  }

  lemma MovedRest<D>(cells: seq<Cell<D>>, cells': seq<Cell<D>>, ks: seq<nat>, rs: seq<nat>, high: Option<nat>, low: Option<nat>)
    requires rs != [] && rs[0] < |cells| && (ks != [] ==> ks[|ks| - 1] < |cells|) && Distinct(ks + rs)
    requires Linked(Unlinked(cells, ks, rs[0]), low, ks + rs[1..])
    requires cells' == Unlinked(cells, ks, rs[0])[rs[0] := cells[rs[0]].(next := high)]
    ensures Linked(cells', low, ks + rs[1..])
  {
    var c, k := ks + rs, |ks|;
    assert c[k] == rs[0] && ks + rs[1..] == Without(c, k);
    WithoutAt(c, k);
    forall j | 0 <= j < |c| - 1
      ensures Without(c, k)[j] != rs[0]
    {
      assert Without(c, k)[j] in Without(c, k);
    }
    LinkedKept(Unlinked(cells, ks, rs[0]), cells', low, ks + rs[1..]);
  }

  /** The chain's cells with the link of the one in front of e led past it. */
  function Unlinked<D>(cells: seq<Cell<D>>, ks: seq<nat>, e: nat): (r: seq<Cell<D>>)
    requires e < |cells| && (ks != [] ==> ks[|ks| - 1] < |cells|)
    ensures |r| == |cells|
  {
    if ks == [] then cells else cells[ks[|ks| - 1] := cells[ks[|ks| - 1]].(next := cells[e].next)]
  }

  lemma MovedLow<D>(cells: seq<Cell<D>>, low: Option<nat>, ks: seq<nat>, rs: seq<nat>)
    requires Linked(cells, low, ks + rs) && Distinct(ks + rs) && rs != []
    requires rs[0] < |cells| && (ks != [] ==> ks[|ks| - 1] < |cells|)
    ensures Linked(Unlinked(cells, ks, rs[0]), if ks == [] then cells[rs[0]].next else low, ks + rs[1..])
  {
    var c, k := ks + rs, |ks|;
    assert c[k] == rs[0] && ks + rs[1..] == Without(c, k);
    if k == 0 {
      assert c[1..] == ks + rs[1..];
      LinkedTail(cells, low, c);
    } else {
      assert c[k - 1] == ks[k - 1];
      LinkedWithout(cells, low, c, k);
    }
  }

  lemma MovedHigh<D>(cells: seq<Cell<D>>, cells': seq<Cell<D>>, high: Option<nat>, ks: seq<nat>, ms: seq<nat>, e: nat, c: seq<nat>)
    requires Linked(cells, high, ms) && Distinct(ms) && e < |cells| && (ks != [] ==> ks[|ks| - 1] < |cells|)
    requires (forall x :: x in ms ==> x !in c) && e in c && (ks != [] ==> ks[|ks| - 1] in c)
    requires cells' == Unlinked(cells, ks, e)[e := cells[e].(next := high)]
    ensures Linked(cells', Some(e), [e] + ms) && Distinct([e] + ms)
  {
    LinkedKept(cells, cells', high, ms);
    LinkedFront(cells', high, ms, e);
  }

  lemma MovedHashes<D>(cells: seq<Cell<D>>, cells': seq<Cell<D>>, ks: seq<nat>, rs: seq<nat>, ms: seq<nat>, n: nat, i: nat)
    requires n > 0 && Hashed(cells, ks, 2 * n, i) && Hashed(cells, ms, 2 * n, i + n) && Hashed(cells, rs, n, i) && rs != []
    requires rs[0] < |cells| && Slot(cells[rs[0]].hash, 2 * n) == i + n
    requires |cells'| == |cells| && forall x :: 0 <= x < |cells| ==> cells'[x].hash == cells[x].hash
    ensures Hashed(cells', ks, 2 * n, i) && Hashed(cells', [rs[0]] + ms, 2 * n, i + n) && Hashed(cells', rs[1..], n, i)
  {
    hide Slot;
  }

  lemma OthersKept<D>(cells: seq<Cell<D>>, cells': seq<Cell<D>>, heads: seq<Option<nat>>, chains: seq<seq<nat>>, n: nat, i: nat, live: set<nat>)
    requires i < n && Others(cells, heads, chains, n, i, live) && |cells'| == |cells|
    requires forall x :: 0 <= x < |cells| ==>
      SameData(cells[x], cells'[x]) && (Slot(cells[x].hash, n) != i ==> cells'[x].next == cells[x].next)
    ensures Others(cells', heads, chains, n, i, live)
  {
    hide Slot, Linked, Distinct;
    forall b | 0 <= b < 2 * n && b != i && b != i + n
      ensures InBucket(cells', heads[b], chains[b], b, Modulus(b, n, i), live)
    {
      var c := chains[b];
      forall k | 0 <= k < |c|
        ensures c[k] < |cells'| && SameLinks(cells[c[k]], cells'[c[k]])
      {
        SlotSplit(cells[c[k]].hash, n);
      }
      BucketKept(cells, cells', heads[b], c, b, Modulus(b, n, i), live, live);
    }
  }

  lemma SplitEnd<D>(cells: seq<Cell<D>>, cells': seq<Cell<D>>, heads: seq<Option<nat>>, heads': seq<Option<nat>>, chains: seq<seq<nat>>,
                 n: nat, i: nat, live: set<nat>, ks: seq<nat>, ms: seq<nat>)
    requires i < n && Mixed(cells, heads, chains, n, i, live) && |cells'| == |cells| && |heads'| == 2 * n
    requires forall x :: 0 <= x < |cells| ==> SameData(cells[x], cells'[x])
    requires Others(cells', heads, chains, n, i, live)
    requires Halves(cells', heads'[i], heads'[i + n], ks, [], ms, n, i, chains[i])
    requires forall b :: 0 <= b < 2 * n && b != i && b != i + n ==> heads'[b] == heads[b]
    ensures Mixed(cells', heads', chains[i := ks][i + n := ms], n, i + 1, live)
  {
    hide Slot, Linked, Distinct;
    var chains' := chains[i := ks][i + n := ms];
    assert ks + [] == ks;
    SplitChains(cells, cells', heads, heads', chains, n, i, live, ks, ms);
    forall b | 0 <= b < 2 * n
      ensures InBucket(cells', heads'[b], chains'[b], b, Modulus(b, n, i + 1), live)
    {
      if b != i && b != i + n {
        assert Modulus(b, n, i + 1) == Modulus(b, n, i);
      }
    }
    hide InBucket;
    forall x | x in live
      ensures x in chains'[MixedSlot(cells'[x].hash, n, i + 1)]
    {
      var h := cells[x].hash;
      assert SameData(cells[x], cells'[x]);
      assert x in chains[MixedSlot(h, n, i)];
      SlotSplit(h, n);
      if Slot(h, n) == i {
        SplitSide(cells', ks, ms, n, i, x);
      }
    }
  }

  lemma SplitSide<D>(cells: seq<Cell<D>>, ks: seq<nat>, ms: seq<nat>, n: nat, i: nat, x: nat)
    requires n > 0 && Hashed(cells, ks, 2 * n, i) && Hashed(cells, ms, 2 * n, i + n) && (x in ks || x in ms)
    ensures x < |cells| && (Slot(cells[x].hash, 2 * n) == i ==> x in ks) && (Slot(cells[x].hash, 2 * n) == i + n ==> x in ms)
  {
  }

  lemma SplitChains<D>(cells: seq<Cell<D>>, cells': seq<Cell<D>>, heads: seq<Option<nat>>, heads': seq<Option<nat>>, chains: seq<seq<nat>>,
                    n: nat, i: nat, live: set<nat>, ks: seq<nat>, ms: seq<nat>)
    requires i < n && Mixed(cells, heads, chains, n, i, live) && |cells'| == |cells| && |heads'| == 2 * n
    requires Halves(cells', heads'[i], heads'[i + n], ks, [], ms, n, i, chains[i])
    ensures InBucket(cells', heads'[i], ks, i, 2 * n, live) && InBucket(cells', heads'[i + n], ms, i + n, 2 * n, live)
  {
    hide Slot, Linked, Distinct;
    assert ks + [] == ks;
    assert InBucket(cells, heads[i], chains[i], i, Modulus(i, n, i), live);
    forall k | 0 <= k < |ks|
      ensures ks[k] in live
    {
      assert ks[k] in chains[i];
    }
    forall k | 0 <= k < |ms|
      ensures ms[k] in live
    {
      assert ms[k] in chains[i];
    }
  }

  // ----- removing -----

  lemma FiledAt<D>(cells: seq<Cell<D>>, heads: seq<Option<nat>>, chains: seq<seq<nat>>, live: set<nat>, entry: nat)
    requires Filed(cells, heads, chains, live) && entry in live
    ensures |heads| == |chains| > 0 && entry < |cells|
    ensures var b := Slot(cells[entry].hash, |chains|);
            && Linked(cells, heads[b], chains[b]) && entry in chains[b] && chains[b] != []
            && heads[b] == Some(chains[b][0]) && chains[b][0] < |cells|
  {
    hide Slot;
    var b := Slot(cells[entry].hash, |chains|);
    assert InBucket(cells, heads[b], chains[b], b, |chains|, live);
  }

  lemma LinkedAt<D>(cells: seq<Cell<D>>, head: Option<nat>, chain: seq<nat>, k: nat)
    requires Linked(cells, head, chain) && k + 1 < |chain|
    ensures chain[k] < |cells| && cells[chain[k]].next == Some(chain[k + 1]) && chain[k + 1] < |cells|
  {
    assert cells[chain[k]].next == After(chain, k);
  }

  lemma StillAhead(chain: seq<nat>, k: nat, x: nat)
    requires k < |chain| && x in chain && x !in chain[..k] && chain[k] != x
    ensures k + 1 < |chain| && x !in chain[..k + 1]
  {
    assert chain[..k + 1] == chain[..k] + [chain[k]];
    assert chain == chain[..k + 1] + chain[k + 1..];
  }

  /** A cell leaves its chain. */
  lemma FiledLess<D>(cells: seq<Cell<D>>, heads: seq<Option<nat>>, chains: seq<seq<nat>>, live: set<nat>,
                     entry: nat, b: nat, k: nat)
    requires Filed(cells, heads, chains, live) && entry in live && b < |chains| && k < |chains[b]| && chains[b][k] == entry
    requires b == Slot(cells[entry].hash, |chains|)
    ensures k > 0 ==> chains[b][k - 1] < |cells|
    ensures var chain := chains[b];
            var cells' := if k == 0 then cells else cells[chain[k - 1] := cells[chain[k - 1]].(next := cells[entry].next)];
            var heads' := if k == 0 then heads[b := cells[entry].next] else heads;
            Filed(cells', heads', chains[b := Without(chain, k)], live - {entry})
  {
    hide Slot, Linked, Distinct, Without;
    var chain, n := chains[b], |chains|;
    assert InBucket(cells, heads[b], chain, b, n, live);
    var cells' := if k == 0 then cells else cells[chain[k - 1] := cells[chain[k - 1]].(next := cells[entry].next)];
    var heads' := if k == 0 then heads[b := cells[entry].next] else heads;
    BucketLess(cells, heads[b], chain, b, n, live, entry, k);
    WithoutAt(chain, k);
    hide InBucket;
    forall c | 0 <= c < n
      ensures InBucket(cells', heads'[c], chains[b := Without(chain, k)][c], c, n, live - {entry})
    {
      if c != b {
        BucketOther(cells, cells', heads[c], chains[c], c, n, live, entry, if k == 0 then entry else chain[k - 1], b);
      }
    }
    forall i | i in live - {entry}
      ensures i in chains[b := Without(chain, k)][Slot(cells'[i].hash, n)]
    {
      assert i in chains[Slot(cells[i].hash, n)];
    }
  }

  lemma LinkedLess<D>(cells: seq<Cell<D>>, head: Option<nat>, chain: seq<nat>, k: nat)
    requires Linked(cells, head, chain) && Distinct(chain) && k < |chain|
    ensures chain[k] < |cells| && (k > 0 ==> chain[k - 1] < |cells|)
    ensures var next := cells[chain[k]].next;
            Linked(if k == 0 then cells else cells[chain[k - 1] := cells[chain[k - 1]].(next := next)],
                   if k == 0 then next else head, Without(chain, k))
  {
    if k == 0 {
      LinkedTail(cells, head, chain);
      assert chain[1..] == Without(chain, 0);
    } else {
      LinkedWithout(cells, head, chain, k);
    }
  }

  lemma BucketLess<D>(cells: seq<Cell<D>>, head: Option<nat>, chain: seq<nat>, b: nat, n: nat, live: set<nat>, entry: nat, k: nat)
    requires n > 0 && InBucket(cells, head, chain, b, n, live) && k < |chain| && chain[k] == entry
    ensures k > 0 ==> chain[k - 1] < |cells| && Slot(cells[chain[k - 1]].hash, n) == b
    ensures var cells' := if k == 0 then cells else cells[chain[k - 1] := cells[chain[k - 1]].(next := cells[entry].next)];
            InBucket(cells', if k == 0 then cells[entry].next else head, Without(chain, k), b, n, live - {entry})
  {
    LinkedLess(cells, head, chain, k);
    WithoutAt(chain, k);
    hide Slot, Linked, Without;
    var rest := Without(chain, k);
    var cells' := if k == 0 then cells else cells[chain[k - 1] := cells[chain[k - 1]].(next := cells[entry].next)];
    forall j | 0 <= j < |rest|
      ensures rest[j] in live - {entry} && Slot(cells'[rest[j]].hash, n) == b
    {
      var i := if j < k then j else j + 1;
      assert rest[j] == chain[i] && chain[i] != chain[k];
    }
  }

  lemma BucketOther<D>(cells: seq<Cell<D>>, cells': seq<Cell<D>>, head: Option<nat>, chain: seq<nat>, c: nat, n: nat, live: set<nat>,
                       entry: nat, x: nat, b: nat)
    requires n > 0 && InBucket(cells, head, chain, c, n, live) && c != b && entry < |cells| && x < |cells| == |cells'|
    requires Slot(cells[entry].hash, n) == b && Slot(cells[x].hash, n) == b
    requires forall y :: 0 <= y < |cells| && y != x ==> cells'[y] == cells[y]
    ensures InBucket(cells', head, chain, c, n, live - {entry})
  {
    hide Slot;
    forall k | 0 <= k < |chain|
      ensures chain[k] < |cells'| && cells'[chain[k]] == cells[chain[k]] && chain[k] != entry
    {
    }
    LinkedKept(cells, cells', head, chain);
  }

  lemma FiledCut<D>(cells: seq<Cell<D>>, heads: seq<Option<nat>>, chains: seq<seq<nat>>, live: set<nat>, m: nat)
    requires Filed(cells, heads, chains, live) && m <= |cells| && forall x :: x in live ==> x < m
    ensures Filed(cells[..m], heads, chains, live)
  {
    hide InBucket;
    forall b | 0 <= b < |chains|
      ensures InBucket(cells[..m], heads[b], chains[b], b, |chains|, live)
    {
      BucketRange(cells, heads[b], chains[b], b, |chains|, live);
      BucketKept(cells, cells[..m], heads[b], chains[b], b, |chains|, live, live);
    }
  }


  // ----- the operations -----

  /** Doubles the number of buckets and splits each chain in place. */
  method Grow<D>(cells0: seq<Cell<D>>, heads0: seq<Option<nat>>, ghost chains0: seq<seq<nat>>, ghost live: set<nat>)
    returns (cells: seq<Cell<D>>, heads: seq<Option<nat>>, ghost chains: seq<seq<nat>>)
    requires Filed(cells0, heads0, chains0, live)
    ensures Filed(cells, heads, chains, live) && |heads| == 2 * |heads0|
    ensures |cells| == |cells0| && forall x :: 0 <= x < |cells| ==> SameData(cells0[x], cells[x])
  {
    hide InBucket, Mixed;
    var n := |heads0|;
    GrowStart(cells0, heads0, chains0, live);
    cells, heads, chains := cells0, heads0 + seq(n, _ => None), chains0 + seq(n, _ => []);
    var i := 0;
    while i < n
      invariant 0 <= i <= n && Mixed(cells, heads, chains, n, i, live)
      invariant |cells| == |cells0| && forall x :: 0 <= x < |cells| ==> SameData(cells0[x], cells[x])
    {
      cells, heads, chains := SplitBucket(cells, heads, chains, live, i, n);
      i := i + 1;
    }
    GrowEnd(cells, heads, chains, n, live);
  }

  /** Moves those entries of bucket i that belong n buckets higher. */
  method SplitBucket<D>(cells0: seq<Cell<D>>, heads0: seq<Option<nat>>, ghost chains0: seq<seq<nat>>, ghost live: set<nat>, i: nat, n: nat)
    returns (cells: seq<Cell<D>>, heads: seq<Option<nat>>, ghost chains: seq<seq<nat>>)
    requires i < n && Mixed(cells0, heads0, chains0, n, i, live)
    ensures Mixed(cells, heads, chains, n, i + 1, live)
    ensures |cells| == |cells0| && forall x :: 0 <= x < |cells| ==> SameData(cells0[x], cells[x])
  {
    hide Linked, InBucket, Others, Halves, Slot, Mixed;
    MixedSize(cells0, heads0, chains0, n, i, live);
    cells, heads := cells0, heads0;
    ghost var all := chains0[i];
    ghost var ks: seq<nat>, rs, ms: seq<nat> := [], all, [];
    SplitStart(cells, heads, chains0, n, i, live);
    var prev, ent := None, heads[i];
    while ent.Some?
      invariant |heads| == 2 * n && |cells| == |cells0|
      invariant Halves(cells, heads[i], heads[i + n], ks, rs, ms, n, i, all)
      invariant prev == Last(ks) && ent == First(rs)
      invariant forall b :: 0 <= b < 2 * n && b != i && b != i + n ==> heads[b] == heads0[b]
      invariant Others(cells, heads0, chains0, n, i, live)
      invariant forall x :: 0 <= x < |cells| ==> SameData(cells0[x], cells[x])
      decreases |rs|
    {
      var e := ent.value;
      ghost var was, head := cells, heads[i];
      HalvesRange(cells, heads[i], heads[i + n], ks, rs, ms, n, i, all);
      SlotSplit(cells[e].hash, n);
      if Slot(cells[e].hash, 2 * n) != i {
        var after := cells[e].next;
        if prev.None? {
          heads := heads[i := after];
        } else {
          cells := cells[prev.value := cells[prev.value].(next := after)];
        }
        cells := cells[e := cells[e].(next := heads[i + n])];
        HalvesMoved(was, cells, head, heads[i], heads[i + n], ks, rs, ms, n, i, all);
        heads := heads[i + n := Some(e)];
        ms, rs := [e] + ms, rs[1..];
        OthersKept(was, cells, heads0, chains0, n, i, live);
      } else {
        HalvesStayed(cells, heads[i], heads[i + n], ks, rs, ms, n, i, all);
        prev := Some(e);
        ks, rs := ks + [e], rs[1..];
      }
      HalvesRange(cells, heads[i], heads[i + n], ks, rs, ms, n, i, all);
      ent := if prev.None? then heads[i] else cells[prev.value].next;
    }
    SplitEnd(cells0, cells, heads0, heads, chains0, n, i, live, ks, ms);
    chains := chains0[i := ks][i + n := ms];
  }

  /** Takes an entry out of the chain of its bucket. */
  method Unlink<D>(cells0: seq<Cell<D>>, heads0: seq<Option<nat>>, ghost chains0: seq<seq<nat>>, ghost live: set<nat>, entry: nat)
    returns (cells: seq<Cell<D>>, heads: seq<Option<nat>>, ghost chains: seq<seq<nat>>)
    requires Filed(cells0, heads0, chains0, live) && entry in live
    ensures Filed(cells, heads, chains, live - {entry}) && |heads| == |heads0|
    ensures |cells| == |cells0| && forall x :: 0 <= x < |cells| ==> SameData(cells0[x], cells[x])
  {
    hide Filed, Slot, Linked, Distinct, InBucket;
    FiledAt(cells0, heads0, chains0, live, entry);
    cells, heads := cells0, heads0;
    var b := Slot(cells[entry].hash, |heads|);
    ghost var chain := chains0[b];
    var prev, cur := None, heads[b];
    ghost var k := 0;
    while cur != Some(entry)
      invariant 0 <= k < |chain| && cur == Some(chain[k]) && entry !in chain[..k] && chain[k] < |cells|
      invariant prev == (if k == 0 then None else Some(chain[k - 1]))
      decreases |chain| - k
    {
      StillAhead(chain, k, entry);
      LinkedAt(cells, heads[b], chain, k);
      prev, cur, k := cur, cells[cur.value].next, k + 1;
    }
    var after := cells[entry].next;
    FiledLess(cells, heads, chains0, live, entry, b, k);
    if prev.Some? {
      cells := cells[prev.value := cells[prev.value].(next := after)];
    } else {
      heads := heads[b := after];
    }
    chains := chains0[b := Without(chain, k)];
  }
}
