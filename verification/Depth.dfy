/** How deep the Perl merger counts itself to be.  It counts a level for every array, hash or object that is
    still open, and one, never given back, for every tag that only stands in front of a value: REFN, WEAKEN,
    OBJECTV, and the last of several pads.  Tags are given by their numbers. */
module Depth {
  import opened Varint
  import opened Wire
  import opened Mapping
  import opened Tags

  /** Where the item at p ends: behind everything, if it does not. */
  function EndOf(b: seq<byte>, p: nat): (e: nat)
    ensures p <= |b| ==> p < e <= |b| + 1
  {
    match Parse(b, p, [Item])
    case None => |b| + 1
    case Some(e) => e
  }

  predicate InFront(b: seq<byte>, c: nat) {
    c < |b| && (b[c] % 128 in {40, 45, 48, 51} || (b[c] % 128 == 63 && (c + 1 >= |b| || b[c + 1] % 128 != 63)))
  }

  predicate Encloses(b: seq<byte>, c: nat) {
    c < |b| && (b[c] % 128 in {42, 43, 44, 50} || 64 <= b[c] % 128 <= 95)
  }

  /** The tag at c still counts at q. */
  predicate Counts(b: seq<byte>, c: nat, q: nat) {
    InFront(b, c) || (Encloses(b, c) && q < EndOf(b, c))
  }

  /** How many of the tags from p on count at q. */
  ghost function Level(b: seq<byte>, p: nat, q: nat): nat
    decreases q - p
  {
    if p >= q then 0
    else match Scan(b, p)
      case None => 0
      case Some((_, n)) => (if Counts(b, p, q) then 1 else 0) + Level(b, n, q)
  }

  /** How many of them are never given back. */
  ghost function Leaks(b: seq<byte>, p: nat, q: nat): nat
    decreases q - p
  {
    if p >= q then 0
    else match Scan(b, p)
      case None => 0
      case Some((_, n)) => (if InFront(b, p) then 1 else 0) + Leaks(b, n, q)
  }

  /** No tag from p up to e comes too deep, if d levels are counted at p; and no pad has the track flag, with
      which the merger never gets past it. */
  ghost predicate InDepth(b: seq<byte>, p: nat, e: nat, d: nat, most: nat) {
    forall q: nat :: Path(b, p, q) && q < e ==> (q < |b| ==> b[q] != 191) && d + Level(b, p, q) < most
  }

  /** A document that nests no deeper than the merger may go. */
  ghost predicate Shallow(b: seq<byte>, most: nat) {
    InDepth(b, 1, EndOf(b, 1), 0, most)
  }

  lemma LevelSelf(b: seq<byte>, p: nat)
    ensures Level(b, p, p) == 0 && Leaks(b, p, p) == 0
  {
  }

  /** One tag more, which counts w at all that come behind it. */
  lemma DepthNext(b: seq<byte>, p: nat, n: nat, e: nat, d: nat, most: nat, w: nat)
    requires Scan(b, p).Some? && Scan(b, p).value.1 == n <= e && w <= 1
    requires forall q :: n <= q < e ==> (Counts(b, p, q) <==> w == 1)
    ensures InDepth(b, p, e, d, most) <==> b[p] != 191 && d < most && InDepth(b, n, e, d + w, most)
  {
    hide Scan, Counts;
    LevelSelf(b, p);
    PathSelf(b, p);
    forall q: nat | Path(b, n, q) && q < e
      ensures Path(b, p, q) && Level(b, p, q) == w + Level(b, n, q)
    {
      PathOrder(b, n, q);
      PathTo(b, p, q);
    }
    forall q: nat | Path(b, p, q) && q < e && q != p
      ensures Path(b, n, q)
    {
      PathTo(b, p, q);
    }
  }

  /** A tag that does not fit makes what follows misfit, or is counted right. */
  lemma DepthHere(b: seq<byte>, p: nat, e: nat, d: nat, most: nat)
    requires p < e
    ensures InDepth(b, p, e, d, most) ==> d < most && (p < |b| ==> b[p] != 191)
  {
    LevelSelf(b, p);
    PathSelf(b, p);
  }

  lemma LeaksNext(b: seq<byte>, p: nat, n: nat, e: nat)
    requires Scan(b, p).Some? && Scan(b, p).value.1 == n <= e
    ensures Leaks(b, p, e) == (if InFront(b, p) then 1 else 0) + Leaks(b, n, e)
  {
    hide Scan;
  }

  /** What is complete at k counts at nothing behind it, but for what it leaks. */
  lemma {:induction false} LevelBehind(b: seq<byte>, p: nat, ws: seq<Want>, k: nat, q: nat)
    requires Parse(b, p, ws) == Some(k) && k <= q
    ensures Level(b, p, q) == Leaks(b, p, k) + Level(b, k, q)
    decreases |b| - p
  {
    hide Scan, Wants, InFront;
    if ws != [] {
      var (t, n) := Scan(b, p).value;
      LevelBehind(b, n, Wants(t) + ws[1..], k, q);
      assert ws == [ws[0]] + ws[1..];
      ParseSplit(b, p, [ws[0]], ws[1..]);
      assert [ws[0]][1..] == [Item][1..];
      assert EndOf(b, p) <= k;
    } else {
      LevelSelf(b, p);
    }
  }

  lemma {:induction false} LeaksSplit(b: seq<byte>, p: nat, k: nat, e: nat)
    requires Path(b, p, k) && k <= e
    ensures Leaks(b, p, e) == Leaks(b, p, k) + Leaks(b, k, e)
    decreases |b| - p
  {
    hide Scan, InFront;
    PathOrder(b, p, k);
    if p != k {
      PathOrder(b, Scan(b, p).value.1, k);
      LeaksSplit(b, Scan(b, p).value.1, k, e);
    }
  }

  /** Complete items, and what follows them. */
  lemma DepthSplit(b: seq<byte>, p: nat, ws: seq<Want>, k: nat, e: nat, d: nat, most: nat)
    requires Parse(b, p, ws) == Some(k) && k <= e
    ensures Leaks(b, p, e) == Leaks(b, p, k) + Leaks(b, k, e)
    ensures InDepth(b, p, e, d, most) <==> InDepth(b, p, k, d, most) && InDepth(b, k, e, d + Leaks(b, p, k), most)
  {
    hide Scan, Parse, Level, Leaks;
    ParsePath(b, p, ws);
    LeaksSplit(b, p, k, e);
    forall q: nat | Path(b, p, q) && k <= q
      ensures Path(b, k, q) && Level(b, p, q) == Leaks(b, p, k) + Level(b, k, q)
    {
      PathCut(b, p, k, q);
      LevelBehind(b, p, ws, k, q);
    }
    forall q: nat | Path(b, k, q)
      ensures k <= q && Path(b, p, q)
    {
      PathOrder(b, k, q);
      PathTrans(b, p, k, q);
    }
  }

  lemma {:induction false} PathCut(b: seq<byte>, p: nat, k: nat, q: nat)
    requires Path(b, p, k) && Path(b, p, q) && k <= q
    ensures Path(b, k, q)
    decreases |b| - p
  {
    hide Scan;
    if p != k {
      PathOrder(b, Scan(b, p).value.1, k);
      PathCut(b, Scan(b, p).value.1, k, q);
    }
  }

  // ----- one tag -----

  /** A tag with nothing to follow. */
  lemma DepthSingle(b: seq<byte>, p: nat, e: nat, d: nat, most: nat)
    requires Scan(b, p).Some? && Wants(Scan(b, p).value.0) == [] && Scan(b, p).value.1 == e
    ensures InDepth(b, p, e, d, most) <==> d < most
    ensures Leaks(b, p, e) == 0
  {
    TagFollows(b, p);
    DepthNext(b, p, e, e, d, most, 0);
    LeaksNext(b, p, e, e);
    LevelSelf(b, e);
    hide Scan, Wants;
    forall q: nat | Path(b, e, q)
      ensures q >= e
    {
      PathOrder(b, e, q);
    }
  }

  /** What follows what. */
  lemma TagFollows(b: seq<byte>, p: nat)
    requires Scan(b, p).Some?
    ensures var t := Scan(b, p).value.0;
            && (t.Pad? <==> b[p] % 128 == 63)
            && (t == Open(40, 0) || t == Open(48, 0) || t.ObjectV? <==> b[p] % 128 in {40, 45, 48, 51})
            && (Wants(t) == [] && !t.Open? ==> b[p] % 128 != 63 && !InFront(b, p) && !Encloses(b, p))
            && (t.Open? <==> b[p] % 128 in {40, 48} || Encloses(b, p))
            && (t.Open? && t.tag != 40 && t.tag != 48 <==> Encloses(b, p))
  {
    ReadsValue(b, p);
    ReadsOther(b, p);
    hide Scan, Read;
  }

  lemma DepthNone(b: seq<byte>, p: nat, d: nat, most: nat)
    ensures InDepth(b, p, p, d, most) && Leaks(b, p, p) == 0
  {
    LevelSelf(b, p);
    forall q: nat | Path(b, p, q)
      ensures q >= p
    {
      PathOrder(b, p, q);
    }
  }

  /** An array, hash or object, and what is behind its tag. */
  lemma DepthOpen(b: seq<byte>, p: nat, n: nat, d: nat, most: nat)
    requires Scan(b, p).Some? && Scan(b, p).value.1 == n && Encloses(b, p)
    ensures InDepth(b, p, EndOf(b, p), d, most) <==> d < most && InDepth(b, n, EndOf(b, p), d + 1, most)
    ensures Leaks(b, p, EndOf(b, p)) == Leaks(b, n, EndOf(b, p))
  {
    ParseItem(b, p);
    hide Scan, Wants, InDepth, Leaks;
    assert !InFront(b, p) && b[p] != 191 && n <= |b|;
    var e := EndOf(b, p);
    DepthNext(b, p, n, e, d, most, 1);
    LeaksNext(b, p, n, e);
  }

  /** A tag that only stands in front, but for padding. */
  lemma DepthFront(b: seq<byte>, p: nat, n: nat, d: nat, most: nat)
    requires Scan(b, p).Some? && Scan(b, p).value.1 == n && b[p] % 128 in {40, 45, 48, 51}
    ensures EndOf(b, p) == EndOf(b, n)
    ensures InDepth(b, p, EndOf(b, p), d, most) <==> d < most && InDepth(b, n, EndOf(b, p), d + 1, most)
    ensures Leaks(b, p, EndOf(b, p)) == 1 + Leaks(b, n, EndOf(b, p))
  {
    FrontEnd(b, p, n);
    hide Scan, Wants, InDepth, Leaks, Read, Parse, EndOf;
    assert InFront(b, p);
    var e := EndOf(b, p);
    DepthNext(b, p, n, e, d, most, 1);
    LeaksNext(b, p, n, e);
  }

  lemma FrontEnd(b: seq<byte>, p: nat, n: nat)
    requires Scan(b, p).Some? && Scan(b, p).value.1 == n && b[p] % 128 in {40, 45, 48, 51, 63}
    ensures EndOf(b, p) == EndOf(b, n) && n <= |b| && n <= EndOf(b, p)
  {
    ParseItem(b, p);
    FrontWants(b, p);
    hide Scan, Wants, Parse;
  }

  lemma FrontWants(b: seq<byte>, p: nat)
    requires Scan(b, p).Some? && b[p] % 128 in {40, 45, 48, 51, 63}
    ensures Wants(Scan(b, p).value.0) == [Item] && !Scan(b, p).value.0.Other?
    ensures Scan(b, p).value.1 <= |b|
  {
    ReadsOther(b, p);
    hide Scan, Read;
  }

  /** A pad, which counts if it is the last. */
  lemma DepthPad(b: seq<byte>, p: nat, d: nat, most: nat)
    requires p < |b| && b[p] == 63
    ensures EndOf(b, p) == EndOf(b, p + 1)
    ensures var e, w := EndOf(b, p), if InFront(b, p) then 1 else 0;
            && (InDepth(b, p, e, d, most) <==> d < most && InDepth(b, p + 1, e, d + w, most))
            && Leaks(b, p, e) == w + Leaks(b, p + 1, e)
  {
    ParseItem(b, p);
    ReadsOther(b, p);
    FrontWants(b, p);
    hide Scan, Wants, InDepth, Leaks, Read;
    var e := EndOf(b, p);
    DepthNext(b, p, p + 1, e, d, most, if InFront(b, p) then 1 else 0);
    LeaksNext(b, p, p + 1, e);
  }

  /** A key counts as what follows it. */
  lemma DepthKey(b: seq<byte>, p: nat, k: nat, e: nat, d: nat, most: nat)
    requires Parse(b, p, [Key]) == Some(k) && k < e
    ensures InDepth(b, p, e, d, most) <==> InDepth(b, k, e, d, most)
    ensures Leaks(b, p, k) == 0 && (InDepth(b, p, k, d, most) <==> d < most)
  {
    var t := Scan(b, p).value.0;
    assert Wants(t) == [] && Scan(b, p).value.1 == k;
    DepthSingle(b, p, k, d, most);
    hide Scan, Wants, InDepth, Leaks, Parse;
    DepthSplit(b, p, [Key], k, e, d, most);
    DepthHere(b, k, e, d, most);
  }

  /** One of the items behind the tag at p: those before it are complete, and it is not deeper than all are. */
  lemma DepthMember(b: seq<byte>, p: nat, n: nat, ws: seq<Want>, at: nat, d: nat, most: nat)
    requires Scan(b, p).Some? && Scan(b, p).value.1 == n && Encloses(b, p)
    requires Parse(b, n, ws) == Some(at) && at <= EndOf(b, at) <= EndOf(b, p)
    ensures InDepth(b, p, EndOf(b, p), d, most) ==> InDepth(b, at, EndOf(b, at), d + 1 + Leaks(b, n, at), most)
  {
    hide *;
    DepthOpen(b, p, n, d, most);
    var e := EndOf(b, p);
    DepthSplit(b, n, ws, at, e, d + 1, most);
    DepthLess(b, at, EndOf(b, at), e, d + 1 + Leaks(b, n, at), most);
  }

  lemma MemberEnd(b: seq<byte>, p: nat, n: nat, ws: seq<Want>, at: nat, tail: seq<Want>)
    requires Scan(b, p).Some? && Scan(b, p).value.1 == n && Encloses(b, p)
    requires Wants(Scan(b, p).value.0) == ws + tail && tail != [] && tail[0] == Item && Parse(b, n, ws) == Some(at)
    ensures at <= EndOf(b, at) <= EndOf(b, p)
  {
    ParseItem(b, p);
    InFile(b, p);
    ParsePath(b, n, ws);
    PathOrder(b, n, at);
    hide Scan, Wants, Encloses;
    ParseSplit(b, n, ws, tail);
    hide Parse, Path;
    assert [tail[0]] + tail[1..] == tail;
    ParseSplit(b, at, [Item], tail[1..]);
  }

  lemma InFile(b: seq<byte>, p: nat)
    requires Scan(b, p).Some? && Encloses(b, p)
    ensures p < Scan(b, p).value.1 <= |b|
  {
  }

  lemma DepthLess(b: seq<byte>, p: nat, e: nat, e': nat, d: nat, most: nat)
    requires e <= e'
    ensures InDepth(b, p, e', d, most) ==> InDepth(b, p, e, d, most)
  {
  }
}
