/** The in-line quicksort: an explicit stack of at most 32 pending partitions, median of three, partitions
    of five or fewer elements left to a final insertion sort whose inner loop has no bounds check. */
module QuickSort {

  const MAX_THRESH := 4
  const STACK_SIZE := 32
  const UNSIGNED := 0x1_0000_0000

  /** A comparison under which "not greater" is a total preorder. */
  ghost predicate StrictWeak<T(!new)>(lt: (T, T) -> bool) {
    && (forall x, y :: lt(x, y) ==> !lt(y, x))
    && (forall x, y, z :: !lt(y, x) && !lt(z, y) ==> !lt(z, x))
  }

  ghost predicate Sorted<T>(lt: (T, T) -> bool, s: seq<T>) {
    forall i, j :: 0 <= i < j < |s| ==> !lt(s[j], s[i])
  }

  /** No element from c on is smaller than one before c. */
  ghost predicate Cut<T>(lt: (T, T) -> bool, s: seq<T>, c: int) {
    forall i, j :: 0 <= i < c <= j < |s| ==> !lt(s[j], s[i])
  }

  /** The sequences differ only in the order of the elements at lo..hi, both included. */
  ghost predicate PermutedWithin<T>(s: seq<T>, t: seq<T>, lo: int, hi: int) {
    && |s| == |t| && 0 <= lo <= hi + 1 <= |s|
    && multiset(s) == multiset(t)
    && (forall k :: 0 <= k < |s| && !(lo <= k <= hi) ==> t[k] == s[k])
  }

  lemma SumCancel<T>(a: multiset<T>, x: multiset<T>, y: multiset<T>, b: multiset<T>)
    requires a + x + b == a + y + b
    ensures x == y
  {
    forall e: T
      ensures x[e] == y[e]
    {
      assert (a + x + b)[e] == a[e] + x[e] + b[e];
      assert (a + y + b)[e] == a[e] + y[e] + b[e];
    }
  }

  lemma SamePartition<T>(s: seq<T>, t: seq<T>, lo: int, hi: int)
    requires PermutedWithin(s, t, lo, hi)
    ensures multiset(s[lo..hi + 1]) == multiset(t[lo..hi + 1])
  {
    var m := hi + 1;
    assert s == s[..lo] + s[lo..m] + s[m..];
    assert t == t[..lo] + t[lo..m] + t[m..];
    assert s[..lo] == t[..lo] && s[m..] == t[m..];
    SumCancel(multiset(s[..lo]), multiset(s[lo..m]), multiset(t[lo..m]), multiset(s[m..]));
  }

  lemma PermutedFrom<T>(s: seq<T>, t: seq<T>, lo: int, hi: int, k: int)
    requires PermutedWithin(s, t, lo, hi) && lo <= k <= hi
    ensures exists k' :: lo <= k' <= hi && s[k'] == t[k]
  {
    SamePartition(s, t, lo, hi);
    hide PermutedWithin;
    var x, y := s[lo..hi + 1], t[lo..hi + 1];
    assert t[k] == y[k - lo];
    assert t[k] in multiset(y);
    assert t[k] in x;
    var i :| 0 <= i < |x| && x[i] == t[k];
    assert s[lo + i] == t[k];
  }

  /** Reordering inside a partition keeps every cut outside it. */
  lemma CutKept<T(!new)>(lt: (T, T) -> bool, s: seq<T>, t: seq<T>, lo: int, hi: int, c: int)
    requires PermutedWithin(s, t, lo, hi) && Cut(lt, s, c) && (c <= lo || hi < c)
    ensures Cut(lt, t, c)
  {
    forall i, j | 0 <= i < c <= j < |t|
      ensures !lt(t[j], t[i])
    {
      var i', j' := i, j;
      if lo <= i <= hi {
        PermutedFrom(s, t, lo, hi, i);
        i' :| lo <= i' <= hi && s[i'] == t[i];
      }
      if lo <= j <= hi {
        PermutedFrom(s, t, lo, hi, j);
        j' :| lo <= j' <= hi && s[j'] == t[j];
      }
      assert !lt(s[j'], s[i']);
    }
  }

  lemma PermutedTrans<T>(s: seq<T>, t: seq<T>, u: seq<T>, lo: int, hi: int)
    requires PermutedWithin(s, t, lo, hi) && PermutedWithin(t, u, lo, hi)
    ensures PermutedWithin(s, u, lo, hi)
  {
  }

  method Swap<T>(a: array<T>, i: int, j: int, ghost lo: int, ghost hi: int)
    requires 0 <= lo <= i <= hi < a.Length && lo <= j <= hi
    modifies a
    ensures a[i] == old(a[j]) && a[j] == old(a[i])
    ensures forall k :: 0 <= k < a.Length && k != i && k != j ==> a[k] == old(a[k])
    ensures PermutedWithin(old(a[..]), a[..], lo, hi)
  {
    a[i], a[j] := a[j], a[i];
  }

  /** Orders the elements at lo, mid and hi. */
  method MedianOfThree<T(!new)>(a: array<T>, lt: (T, T) -> bool, lo: int, mid: int, hi: int)
    requires 0 <= lo < mid < hi < a.Length && StrictWeak(lt)
    modifies a
    ensures !lt(a[mid], a[lo]) && !lt(a[hi], a[mid])
    ensures PermutedWithin(old(a[..]), a[..], lo, hi)
  {
    if lt(a[mid], a[lo]) {
      Swap(a, mid, lo, lo, hi);
    }
    if lt(a[hi], a[mid]) {
      Swap(a, mid, hi, lo, hi);
      if lt(a[mid], a[lo]) {
        Swap(a, mid, lo, lo, hi);
      }
    }
  }

  /** "Collapse the walls".  The scans need no bounds check, because the pivot is followed as it moves;
      afterwards everything before l is not above it and everything after r not below it. */
  method CollapseWalls<T(!new)>(a: array<T>, lt: (T, T) -> bool, lo: int, mid0: int, hi: int) returns (l: int, r: int)
    requires 0 <= lo < mid0 < hi < a.Length && hi - lo >= MAX_THRESH && StrictWeak(lt)
    requires !lt(a[mid0], a[lo]) && !lt(a[hi], a[mid0])
    modifies a
    ensures lo <= r < l <= hi && l <= r + 2
    ensures PermutedWithin(old(a[..]), a[..], lo, hi)
    ensures forall i, j :: lo <= i < l && r < j <= hi ==> !lt(a[j], a[i])
  {
    var mid := mid0;
    l, r := lo + 1, hi - 1;
    ghost var pivot := a[mid];
    var go := true;
    while go
      invariant lo < l <= hi && lo <= r < hi && l <= r + 2
      invariant go ==> l <= r
      invariant !go ==> r < l
      invariant lo <= mid <= hi && a[mid] == pivot
      invariant forall i :: lo <= i < l ==> !lt(pivot, a[i])
      invariant forall j :: r < j <= hi ==> !lt(a[j], pivot)
      invariant PermutedWithin(old(a[..]), a[..], lo, hi)
      decreases go, r - l + 2
    {
      while lt(a[l], a[mid])
        invariant lo < l <= r + 1
        invariant forall i :: lo <= i < l ==> !lt(pivot, a[i])
        decreases hi - l
      {
        l := l + 1;
      }
      while lt(a[mid], a[r])
        invariant l - 1 <= r < hi
        invariant forall j :: r < j <= hi ==> !lt(a[j], pivot)
        decreases r
      {
        r := r - 1;
      }
      if l < r {
        ghost var s := a[..];
        Swap(a, l, r, lo, hi);
        PermutedTrans(old(a[..]), s, a[..], lo, hi);
        if mid == l {
          mid := r;
        } else if mid == r {
          mid := l;
        }
        l, r := l + 1, r - 1;
        go := l <= r;
      } else if l == r {
        l, r := l + 1, r - 1;
        go := false;
      } else {
        go := false;
      }
    }
  }

  // ----- the quicksort phase -----

  datatype Part = Part(lo: int, hi: int) {
    function Size(): int { hi - lo + 1 }
  }

  function Pow2(k: nat): (r: nat)
    ensures r >= 1
  {
    if k == 0 then 1 else 2 * Pow2(k - 1)
  }

  ghost predicate Apart(p: Part, q: Part) { p.hi < q.lo || q.hi < p.lo }

  /** A partition worth sorting, between two cuts. */
  ghost predicate PartOk<T(!new)>(lt: (T, T) -> bool, s: seq<T>, p: Part) {
    && 0 <= p.lo && p.hi < |s| && p.hi - p.lo >= MAX_THRESH
    && Cut(lt, s, p.lo) && Cut(lt, s, p.hi + 1)
  }

  /** The smallest element is already among the first five, or lies in a partition still to be sorted. */
  ghost predicate MinInReach<T(!new)>(lt: (T, T) -> bool, s: seq<T>, ps: seq<Part>) {
    || (exists c :: 1 <= c <= MAX_THRESH + 1 && Cut(lt, s, c))
    || (exists k :: 0 <= k < |ps| && ps[k].lo == 0)
  }

  /** The pending partitions, the current one last: each sits between cuts, no two overlap, and the k-th
      has at most n / 2^k elements. */
  ghost predicate Pending<T(!new)>(lt: (T, T) -> bool, s: seq<T>, ps: seq<Part>) {
    && (forall k :: 0 <= k < |ps| ==> PartOk(lt, s, ps[k]))
    && (forall k :: 0 <= k < |ps| ==> ps[k].Size() * Pow2(k) <= |s|)
    && (forall j, k :: 0 <= j < k < |ps| ==> Apart(ps[j], ps[k]))
    && MinInReach(lt, s, ps)
  }

  ghost function Work(ps: seq<Part>): int {
    if ps == [] then 0 else Work(ps[..|ps| - 1]) + 2 * ps[|ps| - 1].Size() - 1
  }

  lemma WorkPush(ps: seq<Part>, p: Part)
    ensures Work(ps + [p]) == Work(ps) + 2 * p.Size() - 1
  {
    assert (ps + [p])[..|ps|] == ps;
  }

  lemma {:induction false} WorkNat<T(!new)>(lt: (T, T) -> bool, s: seq<T>, ps: seq<Part>)
    requires forall k :: 0 <= k < |ps| ==> PartOk(lt, s, ps[k])
    ensures Work(ps) >= 0
  {
    if ps != [] {
      WorkNat(lt, s, ps[..|ps| - 1]);
    }
  }

  /** After collapsing the walls of p, there are cuts at both of its walls. */
  lemma WallsAreCuts<T(!new)>(lt: (T, T) -> bool, s: seq<T>, t: seq<T>, p: Part, l: int, r: int)
    requires PartOk(lt, s, p) && PermutedWithin(s, t, p.lo, p.hi)
    requires p.lo <= r < l <= p.hi
    requires forall i, j :: p.lo <= i < l && r < j <= p.hi ==> !lt(t[j], t[i])
    ensures PartOk(lt, t, p) && Cut(lt, t, r + 1) && Cut(lt, t, l)
  {
    CutKept(lt, s, t, p.lo, p.hi, p.lo);
    CutKept(lt, s, t, p.lo, p.hi, p.hi + 1);
  }

  /** The partitions waiting on the stack are not affected by work on the current one. */
  lemma PendingKept<T(!new)>(lt: (T, T) -> bool, s: seq<T>, t: seq<T>, ps: seq<Part>, p: Part)
    requires Pending(lt, s, ps + [p]) && PermutedWithin(s, t, p.lo, p.hi) && PartOk(lt, t, p)
    ensures Pending(lt, t, ps + [p])
  {
    var all := ps + [p];
    forall k | 0 <= k < |all|
      ensures PartOk(lt, t, all[k])
    {
      assert PartOk(lt, s, all[k]);
      if k < |ps| {
        assert Apart(all[k], all[|ps|]);
        CutKept(lt, s, t, p.lo, p.hi, all[k].lo);
        CutKept(lt, s, t, p.lo, p.hi, all[k].hi + 1);
      }
    }
    if c :| 1 <= c <= MAX_THRESH + 1 && Cut(lt, s, c) {
      if p.lo == 0 {
        assert all[|ps|].lo == 0;
      } else if c <= p.lo || p.hi < c {
        CutKept(lt, s, t, p.lo, p.hi, c);
      } else {
        assert Cut(lt, t, p.lo) && 1 <= p.lo <= MAX_THRESH + 1;
      }
    }
  }

  /** What may be left to do of partition p after its walls have collapsed to l and r. */
  predicate Remainder(p: Part, l: int, r: int, qs: seq<Part>) {
    var (a, b) := (Part(p.lo, r), Part(l, p.hi));
    && p.lo <= r < l <= p.hi
    && (|| (qs == [] && r - p.lo <= MAX_THRESH)
        || (qs == [b] && r - p.lo <= MAX_THRESH && p.hi - l > MAX_THRESH)
        || (qs == [a] && r - p.lo > MAX_THRESH)
        || (qs == [a, b] && r - p.lo > MAX_THRESH && p.hi - l > MAX_THRESH && a.Size() >= b.Size())
        || (qs == [b, a] && r - p.lo > MAX_THRESH && p.hi - l > MAX_THRESH && b.Size() >= a.Size()))
  }

  lemma RemainderWork(ps: seq<Part>, p: Part, l: int, r: int, qs: seq<Part>)
    requires Remainder(p, l, r, qs)
    ensures Work(ps + qs) < Work(ps + [p])
  {
    WorkPush(ps, p);
    if |qs| == 0 {
      assert ps + qs == ps;
    } else if |qs| == 1 {
      WorkPush(ps, qs[0]);
    } else {
      WorkPush(ps, qs[0]);
      WorkPush(ps + [qs[0]], qs[1]);
      assert ps + qs == ps + [qs[0]] + [qs[1]];
    }
  }

  lemma RemainderFits<T(!new)>(lt: (T, T) -> bool, t: seq<T>, p: Part, d: nat, l: int, r: int, qs: seq<Part>, k: nat)
    requires Remainder(p, l, r, qs) && k < |qs| && p.Size() * Pow2(d) <= |t|
    requires PartOk(lt, t, p) && Cut(lt, t, r + 1) && Cut(lt, t, l)
    ensures PartOk(lt, t, qs[k]) && qs[k].Size() * Pow2(d + k) <= |t|
    ensures p.lo <= qs[k].lo && qs[k].hi <= p.hi
  {
    hide Cut;
    if k == 0 {
      MulLe(qs[0].Size(), p.Size(), Pow2(d));
    } else {
      MulLe(2 * qs[1].Size(), p.Size(), Pow2(d));
      assert qs[1].Size() * (2 * Pow2(d)) == (2 * qs[1].Size()) * Pow2(d);
    }
  }

  lemma MulLe(x: int, y: int, z: int)
    requires x <= y && 0 <= z
    ensures x * z <= y * z
  {
  }

  /** Replacing the current partition by what is left of it. */
  lemma PendingNext<T(!new)>(lt: (T, T) -> bool, t: seq<T>, ps: seq<Part>, p: Part, l: int, r: int, qs: seq<Part>)
    requires Pending(lt, t, ps + [p]) && Remainder(p, l, r, qs) && Cut(lt, t, r + 1) && Cut(lt, t, l)
    ensures Pending(lt, t, ps + qs)
    ensures |qs| == 2 && |t| < UNSIGNED ==> |ps| + 3 <= STACK_SIZE
  {
    hide Cut, Pow2;
    var all, next := ps + [p], ps + qs;
    assert all[|ps|] == p && PartOk(lt, t, p) && p.Size() * Pow2(|ps|) <= |t|;
    forall k | 0 <= k < |next|
      ensures PartOk(lt, t, next[k]) && next[k].Size() * Pow2(k) <= |t|
      ensures k >= |ps| ==> p.lo <= next[k].lo && next[k].hi <= p.hi
    {
      if k < |ps| {
        assert next[k] == all[k];
      } else {
        RemainderFits(lt, t, p, |ps|, l, r, qs, k - |ps|);
      }
    }
    forall j, k | 0 <= j < k < |next|
      ensures Apart(next[j], next[k])
    {
      if k < |ps| {
        assert next[j] == all[j] && next[k] == all[k];
      } else if j < |ps| {
        assert next[j] == all[j] && Apart(all[j], all[|ps|]);
      }
    }
    MinStays(lt, t, ps, p, r, qs);
    if |qs| == 2 {
      DepthBound(p.Size(), |ps|, |t|);
    }
  }

  lemma DepthBound(size: int, d: nat, n: int)
    requires size >= 12 && size * Pow2(d) <= n
    ensures n < UNSIGNED ==> d + 3 <= STACK_SIZE
  {
    if d >= 29 {
      PowerUp(29, d);
      assert Pow2(29) == 0x2000_0000 by { PowerValues(); }
      MulLe(12, size, Pow2(d));
    }
  }

  lemma PowerUp(i: nat, j: nat)
    requires i <= j
    ensures Pow2(i) <= Pow2(j)
    decreases j
  {
    if i < j {
      PowerUp(i, j - 1);
    }
  }

  lemma PowerValues()
    ensures Pow2(29) == 0x2000_0000
  {
    assert Pow2(5) == 32;
    assert Pow2(10) == 32 * Pow2(5);
    assert Pow2(15) == 32 * Pow2(10);
    assert Pow2(20) == 32 * Pow2(15);
    assert Pow2(25) == 32 * Pow2(20);
  }

  lemma MinStays<T(!new)>(lt: (T, T) -> bool, t: seq<T>, ps: seq<Part>, p: Part, r: int, qs: seq<Part>)
    requires MinInReach(lt, t, ps + [p]) && 0 <= p.lo <= r && Cut(lt, t, r + 1)
    requires r - p.lo <= MAX_THRESH || (|qs| > 0 && qs[0] == Part(p.lo, r)) || (|qs| > 1 && qs[1] == Part(p.lo, r))
    ensures MinInReach(lt, t, ps + qs)
  {
    if !(exists c :: 1 <= c <= MAX_THRESH + 1 && Cut(lt, t, c)) {
      var k :| 0 <= k < |ps + [p]| && (ps + [p])[k].lo == 0;
      if k < |ps| {
        assert (ps + qs)[k].lo == 0;
      } else if |qs| > 0 && qs[0] == Part(p.lo, r) {
        assert (ps + qs)[|ps|].lo == 0;
      } else if |qs| > 1 && qs[1] == Part(p.lo, r) {
        assert (ps + qs)[|ps| + 1].lo == 0;
      }
    }
  }

  lemma PendingFirst<T(!new)>(lt: (T, T) -> bool, s: seq<T>)
    requires |s| > MAX_THRESH
    ensures Pending(lt, s, [] + [Part(0, |s| - 1)])
  {
    var ps := [] + [Part(0, |s| - 1)];
    assert |ps| == 1 && ps[0] == Part(0, |s| - 1) && Pow2(0) == 1;
    assert ps[0].Size() * Pow2(0) == |s|;
  }

  lemma PendingLast<T(!new)>(lt: (T, T) -> bool, s: seq<T>, ps: seq<Part>, p: Part)
    requires Pending(lt, s, ps + [p])
    ensures PartOk(lt, s, p) && 0 <= p.lo && p.hi < |s| && p.hi - p.lo >= MAX_THRESH
    ensures Work(ps + [p]) >= 0
  {
    assert (ps + [p])[|ps|] == p;
    WorkNat(lt, s, ps + [p]);
  }

  lemma PendingNone<T(!new)>(lt: (T, T) -> bool, s: seq<T>)
    requires Pending(lt, s, [])
    ensures exists c :: 1 <= c <= MAX_THRESH + 1 && Cut(lt, s, c)
  {
  }

  /** Sorts partitions until only small ones are left.  Slot 0 of the stack is never written: popping it
      ends the loop. */
  method QuickPhase<T(!new)>(a: array<T>, lt: (T, T) -> bool)
    requires MAX_THRESH < a.Length < UNSIGNED && StrictWeak(lt)
    modifies a
    ensures multiset(a[..]) == old(multiset(a[..]))
    ensures exists c :: 1 <= c <= MAX_THRESH + 1 && Cut(lt, a[..], c)
  {
    hide Pending, PartOk, Work, Cut;
    var lo, hi := 0, a.Length - 1;
    var stack := new Part[STACK_SIZE];
    var top := 1;
    ghost var ps: seq<Part> := [];
    PendingFirst(lt, a[..]);
    while top > 0
      invariant 0 <= top <= STACK_SIZE && top == |ps| + (if top > 0 then 1 else 0)
      invariant top > 0 ==> ps == stack[1..top]
      invariant Pending(lt, a[..], ps + (if top > 0 then [Part(lo, hi)] else []))
      invariant multiset(a[..]) == old(multiset(a[..]))
      decreases Work(ps + (if top > 0 then [Part(lo, hi)] else []))
    {
      ghost var p, before := Part(lo, hi), a[..];
      PendingLast(lt, a[..], ps, p);
      var l, r := SplitPart(a, lt, lo, hi);
      WallsAreCuts(lt, before, a[..], p, l, r);
      PendingKept(lt, before, a[..], ps, p);
      if r - lo <= MAX_THRESH {
        if hi - l <= MAX_THRESH {
          PendingNext(lt, a[..], ps, p, l, r, []);
          RemainderWork(ps, p, l, r, []);
          top := top - 1;
          lo, hi := stack[top].lo, stack[top].hi;
          assert ps + [] == ps;
          if top > 0 {
            assert ps == ps[..|ps| - 1] + [Part(lo, hi)];
            ps := ps[..|ps| - 1];
          } else {
            assert ps == [];
          }
        } else {
          PendingNext(lt, a[..], ps, p, l, r, [Part(l, hi)]);
          RemainderWork(ps, p, l, r, [Part(l, hi)]);
          lo := l;
        }
      } else if hi - l <= MAX_THRESH {
        PendingNext(lt, a[..], ps, p, l, r, [Part(lo, r)]);
        RemainderWork(ps, p, l, r, [Part(lo, r)]);
        hi := r;
      } else if r - lo > hi - l {
        PendingNext(lt, a[..], ps, p, l, r, [Part(lo, r), Part(l, hi)]);
        RemainderWork(ps, p, l, r, [Part(lo, r), Part(l, hi)]);
        stack[top] := Part(lo, r);
        top := top + 1;
        assert ps + [Part(lo, r), Part(l, hi)] == (ps + [Part(lo, r)]) + [Part(l, hi)];
        ps := ps + [Part(lo, r)];
        lo := l;
      } else {
        PendingNext(lt, a[..], ps, p, l, r, [Part(l, hi), Part(lo, r)]);
        RemainderWork(ps, p, l, r, [Part(l, hi), Part(lo, r)]);
        stack[top] := Part(l, hi);
        top := top + 1;
        assert ps + [Part(l, hi), Part(lo, r)] == (ps + [Part(l, hi)]) + [Part(lo, r)];
        ps := ps + [Part(l, hi)];
        hi := r;
      }
    }
    assert ps + [] == [];
    PendingNone(lt, a[..]);
  }

  method SplitPart<T(!new)>(a: array<T>, lt: (T, T) -> bool, lo: int, hi: int) returns (l: int, r: int)
    requires 0 <= lo && hi < a.Length && hi - lo >= MAX_THRESH && StrictWeak(lt)
    modifies a
    ensures lo <= r < l <= hi && l <= r + 2
    ensures PermutedWithin(old(a[..]), a[..], lo, hi)
    ensures forall i, j :: lo <= i < l && r < j <= hi ==> !lt(a[j], a[i])
  {
    var mid := lo + (hi - lo) / 2;
    MedianOfThree(a, lt, lo, mid, hi);
    ghost var s := a[..];
    l, r := CollapseWalls(a, lt, lo, mid, hi);
    PermutedTrans(old(a[..]), s, a[..], lo, hi);
  }

  // ----- the insertion phase -----

  /** Puts the smallest of the first five elements in front. */
  method SentinelFirst<T(!new)>(a: array<T>, lt: (T, T) -> bool)
    requires a.Length > 0 && StrictWeak(lt)
    requires a.Length <= MAX_THRESH + 1 || exists c :: 1 <= c <= MAX_THRESH + 1 && Cut(lt, a[..], c)
    modifies a
    ensures multiset(a[..]) == old(multiset(a[..]))
    ensures forall j :: 0 <= j < a.Length ==> !lt(a[j], a[0])
  {
    var thresh := if MAX_THRESH > a.Length - 1 then a.Length - 1 else MAX_THRESH;
    var tmp, run := 0, 1;
    while run <= thresh
      invariant 1 <= run <= thresh + 1 && 0 <= tmp < run
      invariant forall j :: 0 <= j < run ==> !lt(a[j], a[tmp])
    {
      if lt(a[run], a[tmp]) {
        tmp := run;
      }
      run := run + 1;
    }
    forall j | 0 <= j < a.Length
      ensures !lt(a[j], a[tmp])
    {
      if j > thresh {
        var c :| 1 <= c <= MAX_THRESH + 1 && Cut(lt, a[..], c);
        assert !lt(a[..][j], a[..][0]);
        assert !lt(a[0], a[tmp]);
      }
    }
    if tmp != 0 {
      Swap(a, tmp, 0, 0, a.Length - 1);
    }
  }

  ghost predicate SortedTo<T>(lt: (T, T) -> bool, s: seq<T>, run: int) {
    forall i, j :: 0 <= i < j < run && j < |s| ==> !lt(s[j], s[i])
  }

  ghost predicate MinFirst<T>(lt: (T, T) -> bool, s: seq<T>) {
    forall j :: 0 <= j < |s| ==> !lt(s[j], s[0])
  }

  function Rotated<T>(s: seq<T>, tmp: int, run: int): (t: seq<T>)
    requires 0 <= tmp <= run < |s|
  {
    s[..tmp] + [s[run]] + s[tmp..run] + s[run + 1..]
  }

  lemma RotatedSame<T>(s: seq<T>, tmp: int, run: int)
    requires 0 <= tmp <= run < |s|
    ensures multiset(Rotated(s, tmp, run)) == multiset(s)
  {
    assert s == s[..tmp] + s[tmp..run] + [s[run]] + s[run + 1..];
  }

  /** Moves the element at run down to tmp. */
  method Rotate<T>(a: array<T>, tmp: int, run: int)
    requires 0 <= tmp <= run < a.Length
    modifies a
    ensures a[..] == Rotated(old(a[..]), tmp, run)
    ensures multiset(a[..]) == old(multiset(a[..]))
  {
    var hold, hi := a[run], run;
    while hi - 1 >= tmp
      invariant tmp <= hi <= run
      invariant forall k :: 0 <= k < hi ==> a[k] == old(a[k])
      invariant forall k :: hi < k <= run ==> a[k] == old(a[k - 1])
      invariant forall k :: run < k < a.Length ==> a[k] == old(a[k])
    {
      a[hi] := a[hi - 1];
      hi := hi - 1;
    }
    a[hi] := hold;
    ghost var s := old(a[..]);
    assert a[..] == Rotated(s, tmp, run);
    RotatedSame(s, tmp, run);
  }

  /** Where the element at run belongs.  The scan is stopped by the smallest element in front. */
  method FindSlot<T(!new)>(a: array<T>, lt: (T, T) -> bool, run: int) returns (tmp: int)
    requires 0 < run < a.Length && StrictWeak(lt) && !lt(a[run], a[0])
    ensures 0 < tmp <= run && !lt(a[run], a[tmp - 1])
    ensures forall k :: tmp <= k < run ==> lt(a[run], a[k])
  {
    tmp := run - 1;
    while lt(a[run], a[tmp])
      invariant 0 <= tmp < run
      invariant forall k :: tmp < k < run ==> lt(a[run], a[k])
      decreases tmp
    {
      tmp := tmp - 1;
    }
    tmp := tmp + 1;
  }

  /** Insertion sort whose inner scan is stopped by the smallest element in front, not by a bounds check. */
  method InsertionPhase<T(!new)>(a: array<T>, lt: (T, T) -> bool)
    requires a.Length > 0 && StrictWeak(lt)
    requires forall j :: 0 <= j < a.Length ==> !lt(a[j], a[0])
    modifies a
    ensures multiset(a[..]) == old(multiset(a[..]))
    ensures Sorted(lt, a[..])
  {
    var run := 2;
    SortedStart(lt, a[..]);
    hide SortedTo, MinFirst, StrictWeak, Rotated, Sorted;
    while run < a.Length
      invariant 2 <= run
      invariant multiset(a[..]) == old(multiset(a[..]))
      invariant MinFirst(lt, a[..])
      invariant SortedTo(lt, a[..], run)
    {
      MinAt(lt, a[..], run);
      var tmp := FindSlot(a, lt, run);
      ghost var s := a[..];
      if tmp != run {
        Rotate(a, tmp, run);
      } else {
        RotatedNot(s, run);
      }
      InsertedSorted(lt, s, a[..], tmp, run);
      run := run + 1;
    }
    SortedEnd(lt, a[..], run);
  }

  lemma SortedStart<T(!new)>(lt: (T, T) -> bool, s: seq<T>)
    requires forall j :: 0 <= j < |s| ==> !lt(s[j], s[0])
    ensures SortedTo(lt, s, 2) && MinFirst(lt, s)
  {
  }

  lemma MinAt<T(!new)>(lt: (T, T) -> bool, s: seq<T>, k: int)
    requires MinFirst(lt, s) && 0 <= k < |s|
    ensures !lt(s[k], s[0])
  {
  }

  lemma RotatedNot<T>(s: seq<T>, run: int)
    requires 0 <= run < |s|
    ensures s == Rotated(s, run, run)
  {
  }

  lemma SortedEnd<T(!new)>(lt: (T, T) -> bool, s: seq<T>, run: int)
    requires SortedTo(lt, s, run) && |s| <= run
    ensures Sorted(lt, s)
  {
  }

  lemma InsertedSorted<T(!new)>(lt: (T, T) -> bool, s: seq<T>, t: seq<T>, tmp: int, run: int)
    requires 0 < tmp <= run < |s| && StrictWeak(lt)
    requires t == Rotated(s, tmp, run)
    requires SortedTo(lt, s, run) && MinFirst(lt, s)
    requires !lt(s[run], s[tmp - 1]) && forall k :: tmp <= k < run ==> lt(s[run], s[k])
    ensures |t| == |s| && SortedTo(lt, t, run + 1) && MinFirst(lt, t)
  {
    assert forall k :: 0 <= k < tmp ==> t[k] == s[k];
    assert t[tmp] == s[run];
    assert forall k :: tmp < k <= run ==> t[k] == s[k - 1];
    assert forall k :: run < k < |s| ==> t[k] == s[k];
    forall i | 0 <= i < tmp
      ensures !lt(s[run], s[i])
    {
      if i < tmp - 1 {
        assert !lt(s[tmp - 1], s[i]);
      }
    }
  }

  /** The result is sorted, and a permutation of what was there. */
  method QSort<T(!new)>(a: array<T>, lt: (T, T) -> bool)
    requires a.Length < UNSIGNED && StrictWeak(lt)
    modifies a
    ensures multiset(a[..]) == old(multiset(a[..]))
    ensures Sorted(lt, a[..])
  {
    if a.Length > MAX_THRESH {
      QuickPhase(a, lt);
    }
    if a.Length > 0 {
      SentinelFirst(a, lt);
      InsertionPhase(a, lt);
    }
  }
}
