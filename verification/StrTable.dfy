/** The string index of the merger: bucket chains threaded through arenas of fixed size, filled from the
    front and purged from the back.  It refines the plain list of entries, in order of allocation, that
    the merger is proved with. */
module StrTable {
  import opened Varint
  import opened MergerState
  import opened Chains

  /** Entries in one arena. */
  const ARENA := 341

  /** The offset of an entry that its owner has not filled in yet. */
  const UNSET := 0xFFFF_FFFF_FFFF_FFFF

  datatype Record = Record(len: nat, offset: nat)

  // ----- the list of entries -----

  function EntryOf(c: Cell<Record>): Entry { Entry(c.hash, c.data.len, c.data.offset) }

  /** The cells that hold entries when n are in use. */
  ghost function Below(n: nat): (s: set<nat>)
    ensures forall x: nat :: x in s <==> x < n
  {
    if n == 0 then {} else Below(n - 1) + {n - 1}
  }

  lemma CutBelow(n: nat, m: nat)
    requires n <= m
    ensures forall x :: x in Below(n) ==> x < m
  {
  }

  lemma BelowNext(n: nat)
    ensures n !in Below(n) && Below(n + 1) == Below(n) + {n} && Below(n) == Below(n + 1) - {n}
  {
  }

  function EntriesOf(cells: seq<Cell<Record>>, n: nat): (es: seq<Entry>)
    requires n <= |cells|
    ensures |es| == n && forall i :: 0 <= i < n ==> es[i] == EntryOf(cells[i])
  {
    seq(n, i requires 0 <= i < n => EntryOf(cells[i]))
  }

  /** What is left when entries are dropped from the end as long as they were recorded at or behind `cut`. */
  function Trimmed(es: seq<Entry>, cut: nat): (r: seq<Entry>)
    ensures r <= es && (r != [] ==> r[|r| - 1].offset < cut)
    ensures forall k :: |r| <= k < |es| ==> es[k].offset >= cut
  {
    if es == [] || es[|es| - 1].offset < cut then es
    else Trimmed(es[..|es| - 1], cut)
  }

  /** When offsets rise in order of allocation, these are exactly the entries recorded before the cut. */
  lemma TrimmedBefore(es: seq<Entry>, cut: nat)
    requires Rising(es)
    ensures Trimmed(es, cut) == Before(es, cut)
  {
    var r := Trimmed(es, cut);
    forall k | 0 <= k < |r|
      ensures es[k].offset < cut
    {
      assert r[k] == es[k] && r[|r| - 1] == es[|r| - 1];
    }
    BeforeIsPrefix(es, |r|, cut);
  }

  lemma TrimmedStep(es: seq<Entry>, n: nat, cut: nat)
    requires 0 < n <= |es| && Trimmed(es, cut) == Trimmed(es[..n], cut)
    ensures es[n - 1].offset >= cut ==> Trimmed(es, cut) == Trimmed(es[..n - 1], cut)
    ensures es[n - 1].offset < cut ==> Trimmed(es, cut) == es[..n]
  {
    assert es[..n][..n - 1] == es[..n - 1];
  }

  // ----- occupancy -----

  /** How many arenas there are with n entries, when the last purge left `floor` of them. */
  function Arenas(floor: nat, n: nat): (a: nat)
    ensures n <= ARENA * a
  {
    var needed := (n + ARENA - 1) / ARENA;
    if needed < floor then floor else needed
  }

  /** The newest arena holds an entry, or there is none at all: only then does a purge stay inside. */
  predicate CanPurge(floor: nat, n: nat) {
    n == 0 || ARENA * (Arenas(floor, n) - 1) < n
  }

  /** The arenas that are left when a purge leaves `left` of n entries. */
  function FloorAfter(floor: nat, n: nat, left: nat): nat {
    if left == n then Arenas(floor, n) else left / ARENA + 1
  }

  /** A purge leaves a table that the next purge fails on exactly when it drops entries and what is left, not
      nothing, fills its arenas. */
  lemma PurgeAfter(floor: nat, n: nat, left: nat)
    requires CanPurge(floor, n) && left <= n
    ensures CanPurge(FloorAfter(floor, n, left), left) <==> left == 0 || left == n || left % 341 != 0
  {
    var a := Arenas(floor, n);
    if left < n {
      Quotient(left);
    } else {
      Needed(n);
    }
  }

  lemma Quotient(left: nat)
    ensures var q := left / ARENA; left == ARENA * q + left % ARENA && (left + ARENA - 1) / ARENA <= q + 1
  {
  }

  lemma Needed(n: nat)
    ensures n > 0 ==> ARENA * ((n + ARENA - 1) / ARENA - 1) < n
  {
  }

  class StrTable {
    const hash: seq<byte> -> nat

    var heads: seq<Option<nat>>   // the bucket array
    var max: nat                  // one less than the number of buckets, which is a power of two
    var items: nat
    var cells: seq<Cell<Record>>          // the arenas, oldest first
    var arenas: nat
    var next: nat                 // the next free cell

    ghost var chains: seq<seq<nat>>
    ghost var floor: nat          // how many arenas the last purge left

    ghost predicate Valid()
      reads this
    {
      Sane() && arenas == Arenas(floor, next)
    }

    ghost predicate Sane()
      reads this
    {
      && |heads| == max + 1 && |cells| == ARENA * arenas && next <= |cells|
      && (arenas > 0 ==> ARENA * (arenas - 1) <= next) && items == next
      && Filed(cells, heads, chains, Below(next))
    }

    /** The recorded entries, in order of allocation. */
    ghost function Recorded(): seq<Entry>
      requires Valid()
      reads this
    {
      EntriesOf(cells, next)
    }

    /** The newest arena holds an entry, or there is none at all. */
    predicate Purgeable()
      reads `items, `next, `arenas
    {
      items == 0 || (arenas > 0 && ARENA * (arenas - 1) < next)
    }

    constructor (hash: seq<byte> -> nat, exponent: nat)
      ensures Valid() && Recorded() == [] && this.hash == hash && Purgeable() && floor == 0 && max + 1 == PowerOfTwo(exponent)
    {
      this.hash := hash;
      var n := PowerOfTwo(exponent);
      heads := seq(n, _ => None);
      chains := seq(n, _ => []);
      max, items, cells, arenas, next, floor := n - 1, 0, [], 0, 0, 0;
    }

    /** The entry at i holds the bytes of s, in the buffer as it is now. */
    ghost predicate Matches(i: nat, buf: seq<byte>, s: seq<byte>)
      requires i < |cells|
      reads `cells
    {
      && cells[i].hash == hash(s) && cells[i].data.len == |s|
      && cells[i].data.offset + |s| <= |buf| && buf[cells[i].data.offset..cells[i].data.offset + |s|] == s
    }

    /** All entries lie in the buffer. */
    ghost predicate InBuffer(buf: seq<byte>)
      reads `cells, `next
    {
      next <= |cells| && forall i :: 0 <= i < next ==> cells[i].data.offset + cells[i].data.len <= |buf|
    }

    /** Looks s up; if it is not there, a new entry is made, whose offset the caller fills in. */
    method Insert(buf: seq<byte>, s: seq<byte>) returns (ok: bool, at: nat)
      requires Valid() && InBuffer(buf)
      modifies this
      ensures Valid() && at < next <= |cells|
      ensures ok <==> exists i :: 0 <= i < old(next) && old(Matches(i, buf, s))
      ensures ok ==> Recorded() == old(Recorded()) && Matches(at, buf, s) && cells == old(cells)
      ensures max == if !ok && old(Crowded(hash(s))) && old(items) + 1 > old(max) then 2 * old(max) + 1 else old(max)
      ensures !ok ==> at == old(next) && Recorded() == old(Recorded()) + [Entry(hash(s), |s|, UNSET)] && Purgeable()
    {
      hide Filed;
      at := 0;
      var found := Lookup(buf, s);
      match found
      case Some(i) =>
        assert old(Matches(i, buf, s));
        return true, i;
      case None =>
        forall i | 0 <= i < next
          ensures !old(Matches(i, buf, s))
        {
          assert !Matches(i, buf, s);
        }
        ok := false;
        at := Add(s);
    }

    method Lookup(buf: seq<byte>, s: seq<byte>) returns (r: Option<nat>)
      requires Valid() && InBuffer(buf)
      ensures r.Some? ==> r.value < next <= |cells| && Matches(r.value, buf, s)
      ensures r.None? ==> next <= |cells| && forall i :: 0 <= i < next ==> !Matches(i, buf, s)
    {
      hide Filed, Slot;
      var h := hash(s);
      FiledSize(cells, heads, chains, Below(next));
      var b := Slot(h, max + 1);
      ghost var k := 0;
      var ent := heads[b];
      BucketStart(cells, heads, chains, Below(next), b);
      while ent.Some?
        invariant 0 <= k <= |chains[b]|
        invariant ent == if k < |chains[b]| then Some(chains[b][k]) else None
        invariant forall j :: 0 <= j < k ==> chains[b][j] < |cells| && !Matches(chains[b][j], buf, s)
        decreases |chains[b]| - k
      {
        BucketNext(cells, heads, chains, Below(next), b, k);
        var c := cells[ent.value];
        if c.hash == h && c.data.len == |s| && buf[c.data.offset..c.data.offset + |s|] == s {
          return ent;
        }
        ent, k := c.next, k + 1;
      }
      forall i | 0 <= i < next
        ensures !Matches(i, buf, s)
      {
        if cells[i].hash == h {
          InItsBucket(cells, heads, chains, Below(next), i);
        }
      }
      r := None;
    }

    /** An entry is in the bucket of the hash h. */
    ghost predicate Crowded(h: nat)
      reads this
    {
      next <= |cells| && exists i :: 0 <= i < next && cells[i].hash % (max + 1) == h % (max + 1)
    }

    lemma BucketTaken(h: nat)
      requires Valid()
      ensures heads[h % (max + 1)].Some? <==> Crowded(h)
    {
      hide Filed;
      BucketUsed(cells, heads, chains, Below(next), h % (max + 1));
    }

    /** Opens a new arena when the newest one is full. */
    method MakeRoom()
      requires Valid()
      modifies `cells, `arenas
      ensures Sane() && arenas == Arenas(floor, next + 1)
      ensures next < |cells| && old(cells) <= cells && ARENA * (arenas - 1) <= next
    {
      hide Filed, Arenas, Below, Slot;
      OneMore(floor, next, arenas);
      if next == |cells| {
        ghost var cells0 := cells;
        cells := cells + seq(ARENA, _ => Cell(None, 0, Record(0, 0)));
        arenas := arenas + 1;
        FiledSame(cells0, cells, heads, chains, Below(next));
      }
    }

    static lemma OneMore(floor: nat, n: nat, a: nat)
      requires a == Arenas(floor, n) && (a > 0 ==> ARENA * (a - 1) <= n)
      ensures Arenas(floor, n + 1) == if n == ARENA * a then a + 1 else a
    {
    }

    method Add(s: seq<byte>) returns (at: nat)
      requires Valid()
      modifies this
      ensures Valid() && Purgeable() && at == old(next) && next == at + 1 && floor == old(floor)
      ensures Recorded() == old(Recorded()) + [Entry(hash(s), |s|, UNSET)]
      ensures max == if old(Crowded(hash(s))) && old(items) + 1 > old(max) then 2 * old(max) + 1 else old(max)
    {
      hide Filed, InBucket;
      BucketTaken(hash(s));
      MakeRoom();
      at := File(hash(s), |s|);
      if cells[at].next.Some? && items > max {
        Grow();
      }
    }

    /** Takes the next free cell and puts it in front of its bucket. */
    method File(h: nat, len: nat) returns (at: nat)
      requires Sane() && arenas == Arenas(floor, next + 1) && next < |cells| && ARENA * (arenas - 1) <= next
      modifies this
      ensures Valid() && at == old(next) && next == at + 1 && Purgeable() && old(next) <= |old(cells)| && floor == old(floor)
      ensures Recorded() == old(EntriesOf(cells, next)) + [Entry(h, len, UNSET)]
      ensures max == old(max) && items == old(items) + 1 && old(|heads|) == max + 1 && cells[at].next == old(heads)[h % (max + 1)]
    {
      hide Filed, InBucket;
      var b := Slot(h, max + 1);
      at := next;
      next := next + 1;
      ghost var cells0 := cells;
      cells := cells[at := Cell(heads[b], h, Record(len, UNSET))];
      FiledSize(cells0, heads, chains, Below(at));
      BelowNext(at);
      FiledMore(cells0, cells, heads, chains, Below(at), at, b);
      heads := heads[b := Some(at)];
      chains := chains[b := [at] + chains[b]];
      items := items + 1;
    }

    /** Doubles the number of buckets and splits each chain in place. */
    method Grow()
      requires Valid()
      modifies `heads, `max, `cells, `chains
      ensures Valid() && Recorded() == old(Recorded()) && max == 2 * old(max) + 1
    {
      hide Filed;
      cells, heads, chains := Chains.Grow(cells, heads, chains, Below(next));
      max := 2 * max + 1;
      forall x | 0 <= x < next
        ensures EntryOf(cells[x]) == EntryOf(old(cells)[x])
      {
        assert SameData(old(cells)[x], cells[x]);
      }
    }

    /** Drops the entries recorded at or behind `cut`, the newest first.  `ok` is false when the newest
        arena is empty though there are entries: the source then reads in front of that arena. */
    method Purge(cut: nat) returns (ok: bool)
      requires Valid()
      modifies this
      ensures ok <==> CanPurge(old(floor), old(next))
      ensures ok ==> Valid() && Recorded() == Trimmed(old(Recorded()), cut) && floor == FloorAfter(old(floor), old(next), next)
      ensures !ok ==> Valid() && Recorded() == old(Recorded())
    {
      hide Filed, InBucket;
      if items == 0 {
        floor := arenas;
        return true;
      }
      var a := arenas - 1;               // the arena in hand
      if next == ARENA * a {
        return false;                    // the newest entry lies in front of the arena
      }
      ghost var es := Recorded();
      var left, n := 0, next;
      a, left := DropNewest(a, cut, es);
      ArenasLeft(arenas, n, a, left);
      Shrink(a + 1, left);
      ok := true;
      assert Recorded() == es[..left];
    }

    static lemma ArenasLeft(arenas: nat, n: nat, a: nat, left: nat)
      requires a < arenas && n <= ARENA * arenas && ARENA * a <= left <= n
      requires left < n ==> left < ARENA * (a + 1)
      requires left == n ==> a == arenas - 1
      ensures left < n ==> a + 1 == left / ARENA + 1
      ensures a + 1 == Arenas(a + 1, left)
    {
    }

    /** The same where offsets rise in order of allocation: what is left was recorded before the cut. */
    method PurgeRising(cut: nat) returns (ok: bool)
      requires Valid() && Rising(Recorded())
      modifies this
      ensures ok <==> CanPurge(old(floor), |old(Recorded())|)
      ensures ok ==> Valid() && Recorded() == Before(old(Recorded()), cut)
      ensures ok ==> floor == FloorAfter(old(floor), |old(Recorded())|, |Recorded()|)
    {
      hide Filed;
      TrimmedBefore(Recorded(), cut);
      ok := Purge(cut);
    }

    /** Takes the newest entry out of its chain. */
    method Drop(entry: nat, cut: nat, ghost es: seq<Entry>, ghost cells0: seq<Cell<Record>>)
      requires Filed(cells, heads, chains, Below(entry + 1)) && |heads| == max + 1 && entry < |es| <= |cells| == |cells0|
      requires es == EntriesOf(cells0, |es|) && cells[entry].data.offset >= cut && Trimmed(es, cut) == Trimmed(es[..entry + 1], cut)
      requires forall x :: 0 <= x < |cells| ==> SameData(cells0[x], cells[x])
      modifies `heads, `cells, `chains
      ensures Filed(cells, heads, chains, Below(entry)) && |heads| == max + 1 && Trimmed(es, cut) == Trimmed(es[..entry], cut)
      ensures |cells| == |cells0| && forall x :: 0 <= x < |cells| ==> SameData(cells0[x], cells[x])
    {
      hide Filed, Trimmed;
      NewestOffset(es, cells0, cells, entry + 1);
      TrimmedStep(es, entry + 1, cut);
      BelowNext(entry);
      cells, heads, chains := Unlink(cells, heads, chains, Below(entry + 1), entry);
    }

    /** Takes entries out, arena by arena, until one was recorded before the cut. */
    method DropNewest(a0: nat, cut: nat, ghost es: seq<Entry>) returns (a: nat, left: nat)
      requires Valid() && arenas == a0 + 1 && ARENA * a0 < next && es == Recorded()
      modifies `heads, `cells, `chains
      ensures a <= a0 && ARENA * a <= left <= next && left <= ARENA * (a + 1) && next <= |cells| == |old(cells)|
      ensures Filed(cells, heads, chains, Below(left)) && |heads| == max + 1
      ensures Trimmed(es, cut) == es[..left]
      ensures forall x :: 0 <= x < |cells| ==> SameData(old(cells)[x], cells[x])
      ensures left == ARENA * a ==> left < next
      ensures left < next ==> left < ARENA * (a + 1)
      ensures left == next ==> a == a0
    {
      hide Filed, Trimmed, EntryOf, Below, SameData, Slot;
      AllSame(cells);
      ghost var cells0 := cells;
      assert es == EntriesOf(cells0, |es|);
      hide EntriesOf;
      a := a0;
      var free: int := next;             // the cell that would be handed out next
      var entry: int := free - 1;
      left := items;
      var done := false;
      assert es[..next] == es;
      while !done && cells[entry].data.offset >= cut
        invariant 0 <= a <= a0 && free == entry + 1 == left <= next <= |cells| && ARENA * a <= free <= ARENA * (a + 1)
        invariant |cells| == |cells0| && forall x :: 0 <= x < |cells| ==> SameData(cells0[x], cells[x])
        invariant Filed(cells, heads, chains, Below(left)) && |heads| == max + 1
        invariant Trimmed(es, cut) == Trimmed(es[..left], cut)
        invariant done <==> left == 0
        invariant (free == ARENA * a ==> left < next) && (left < next ==> left < ARENA * (a + 1))
        invariant left == next ==> a == a0
        decreases left
      {
        Drop(entry, cut, es, cells0);
        left := left - 1;
        a, free, entry, done := StepBack(a, free, entry);
      }
      if left > 0 {
        NewestOffset(es, cells0, cells, left);
        TrimmedStep(es, left, cut);
      }
    }

    static lemma AllSame(cells: seq<Cell<Record>>)
      ensures forall x :: 0 <= x < |cells| ==> SameData(cells[x], cells[x])
    {
    }

    /** The entry has been dropped: the one before it is next, perhaps in the arena before. */
    static method StepBack(a0: nat, free0: int, entry0: int) returns (a: nat, free: int, entry: int, done: bool)
      requires free0 == entry0 + 1 && 0 <= entry0 && ARENA * a0 <= free0 <= ARENA * (a0 + 1)
      ensures a <= a0 && free == entry + 1 == free0 - 1 && ARENA * a <= free < ARENA * (a + 1)
      ensures done <==> free == 0
    {
      a, free, entry, done := a0, free0, entry0, false;
      if entry == ARENA * a {
        if a == 0 {
          free := entry;
          entry := entry - 1;
          done := true;
        } else {
          entry := ARENA * (a - 1) + ARENA - 1;
          free := free - 1;
        }
      } else if free == ARENA * a {
        a := a - 1;
        free := ARENA * a + ARENA - 1;
        entry := entry - 1;
      } else {
        entry := entry - 1;
        free := free - 1;
      }
    }

    lemma NewestOffset(es: seq<Entry>, cells0: seq<Cell<Record>>, cells1: seq<Cell<Record>>, n: nat)
      requires 0 < n <= |es| <= |cells0| == |cells1| && es == EntriesOf(cells0, |es|)
      requires forall x :: 0 <= x < |cells0| ==> SameData(cells0[x], cells1[x])
      ensures es[n - 1].offset == cells1[n - 1].data.offset
    {
      assert SameData(cells0[n - 1], cells1[n - 1]);
    }

    /** The arenas behind the a-th have been freed. */
    method Shrink(a: nat, live: nat)
      requires 0 < a <= arenas && |cells| == ARENA * arenas && ARENA * (a - 1) <= live <= ARENA * a && live <= |cells|
      requires Filed(cells, heads, chains, Below(live)) && |heads| == max + 1
      requires a == Arenas(a, live)
      modifies `cells, `arenas, `next, `items, `floor
      ensures Valid() && next == live && arenas == a == floor && |cells| <= |old(cells)| && cells == old(cells)[..|cells|]
    {
      hide Filed, Arenas, Below, Slot;
      CutBelow(live, ARENA * a);
      FiledCut(cells, heads, chains, Below(live), ARENA * a);
      cells := cells[..ARENA * a];
      arenas, next, items, floor := a, live, live, a;
    }

    /** The caller says where the string of a new entry stands. */
    method SetOffset(at: nat, offset: nat)
      requires Valid() && at < next
      modifies `cells
      ensures Valid() && |cells| == |old(cells)| && Recorded() == old(Recorded())[at := Entry(old(cells)[at].hash, old(cells)[at].data.len, offset)]
    {
      hide Filed;
      ghost var was := cells;
      cells := cells[at := cells[at].(data := cells[at].data.(offset := offset))];
      FiledSame(was, cells, heads, chains, Below(next));
    }
  }

  // ----- purging twice -----

  /** A new entry whose string stands at `offset`. */
  method AddAt(tbl: StrTable, s: seq<byte>, offset: nat)
    requires tbl.Valid()
    modifies tbl
    ensures tbl.Valid() && tbl.floor == old(tbl.floor)
    ensures tbl.Recorded() == old(tbl.Recorded()) + [Entry(tbl.hash(s), |s|, offset)]
  {
    hide Filed;
    var at := tbl.Add(s);
    tbl.SetOffset(at, offset);
  }

  /** A run that leaves the newest arena empty: one arena is filled, a single entry opens the next, and that
      one is purged again.  With nothing inserted in between, the second purge fails. */
  method PurgeTwice(hash: seq<byte> -> nat, s: seq<byte>) returns (first: bool, second: bool)
    ensures first && !second
  {
    hide StrTable.Valid, StrTable.Recorded;
    var tbl := new StrTable(hash, 9);
    var i := 0;
    while i < ARENA
      invariant 0 <= i <= ARENA && fresh(tbl) && tbl.Valid() && |tbl.Recorded()| == i && tbl.floor == 0
      invariant forall k :: 0 <= k < i ==> tbl.Recorded()[k].offset == 8
    {
      AddAt(tbl, s, 8);
      i := i + 1;
    }
    AddAt(tbl, s, 100);
    ghost var es := tbl.Recorded();
    CountLive(tbl);
    first := tbl.Purge(50);
    OneTrimmed(es);
    CountLive(tbl);
    second := tbl.Purge(50);
  }

  lemma CountLive(tbl: StrTable)
    requires tbl.Valid()
    ensures |tbl.Recorded()| == tbl.next
  {
    hide Filed;
  }

  lemma OneTrimmed(es: seq<Entry>)
    requires |es| == ARENA + 1 && es[ARENA].offset == 100 && es[ARENA - 1].offset == 8
    ensures |Trimmed(es, 50)| == ARENA
  {
    assert es[..ARENA][ARENA - 1] == es[ARENA - 1];
  }
}
