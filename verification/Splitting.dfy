/** When one stream of tags spells out a list of items of another.

    The splitter copies items of an input into a chunk, in the order a control stack dictates.  A chunk
    position owes a list of input items: those that are still to be written from there on.  Writing one
    tag pays the first of them and owes its children instead.  This module says what a single written tag
    must respect, and proves that then every item written means what the input item means. */
module Splitting {
  import opened Varint
  import opened Wire
  import opened Mapping

  // ----- the input -----

  /** What a tag of the input must satisfy: links point back, COPY and OBJECTV at strings, REFP and ALIAS
      at tags that carry the track flag; an ALIAS carries none. */
  ghost predicate TagFit(b: seq<byte>, q: nat)
    requires Scan(b, q).Some?
  {
    match Scan(b, q).value.0
    case Copy(x) => 0 < x < q && Path(b, 1, x) && TextAt(b, x)
    case ObjectV(_, x) => 0 < x < q && Path(b, 1, x) && TextAt(b, x)
    case Refer(x) => 0 < x < q && Path(b, 1, x) && b[x] >= HIGH
    case Alias(x) => 0 < x < q && Path(b, 1, x) && b[x] >= HIGH && b[q] < HIGH
    case Pad => false
    case Other(_) => false
    case _ => true
  }

  /** Where the document ends. */
  function End(b: seq<byte>): nat {
    match Parse(b, 1, [Item])
    case None => 0
    case Some(e) => e
  }

  ghost predicate Fit(b: seq<byte>) {
    Parse(b, 1, [Item]).Some? && forall q :: Path(b, 1, q) && Scan(b, q).Some? ==> TagFit(b, q)
  }

  /** An item of the input begins here. */
  ghost predicate ItemAt(b: seq<byte>, x: nat) {
    1 <= x < End(b) && Path(b, 1, x)
  }

  predicate KeyLike(b: seq<byte>, x: nat) {
    Scan(b, x).Some? && Stringish(Scan(b, x).value.0)
  }

  /** Standing for the same tag; and where one may be a hash key, so may the other. */
  ghost predicate Same(b: seq<byte>, x: nat, y: nat) {
    Resolve(b, x).Some? && Resolve(b, x) == Resolve(b, y) && (KeyLike(b, x) ==> KeyLike(b, y))
  }

  ghost predicate SameAll(b: seq<byte>, xs: seq<nat>, ys: seq<nat>) {
    |xs| == |ys| && forall k :: 0 <= k < |xs| ==> Same(b, xs[k], ys[k])
  }

  lemma ItemParse(b: seq<byte>, x: nat)
    requires ItemAt(b, x)
    ensures Scan(b, x).Some? && Parse(b, x, [Item]).Some? && Parse(b, x, [Item]).value <= End(b) <= |b|
    ensures Path(b, 1, Parse(b, x, [Item]).value)
  {
    ParseInside(b, 1, [Item], x);
    ParsePath(b, x, [Item]);
    PathTrans(b, 1, x, Parse(b, x, [Item]).value);
  }

  /** An item due as a key is an item. */
  lemma KeyItem(b: seq<byte>, p: nat)
    requires Parse(b, p, [Key]).Some?
    ensures Parse(b, p, [Item]) == Parse(b, p, [Key]) && KeyLike(b, p)
  {
    hide Scan;
    var t := Scan(b, p).value.0;
    assert Wants(t) + [Key][1..] == Wants(t) + [Item][1..];
  }

  /** The children of an item are items, the keys among them strings. */
  lemma {:induction false} ChainItems(b: seq<byte>, p: nat, wants: seq<Want>)
    requires 1 <= p && Path(b, 1, p) && Parse(b, p, wants).Some? && Parse(b, p, wants).value <= End(b)
    ensures Chain(b, p, wants).Some?
    ensures forall k :: 0 <= k < |wants| ==> ItemAt(b, Chain(b, p, wants).value[k])
    ensures forall k :: 0 <= k < |wants| && wants[k] == Key ==> KeyLike(b, Chain(b, p, wants).value[k])
    decreases |wants|
  {
    hide Scan, Path, End, KeyLike;
    if wants != [] {
      assert wants == [wants[0]] + wants[1..];
      ParseSplit(b, p, [wants[0]], wants[1..]);
      if wants[0] == Key {
        KeyItem(b, p);
      }
      ParsePath(b, p, [wants[0]]);
      var e := Parse(b, p, [wants[0]]).value;
      PathTrans(b, 1, p, e);
      ChainItems(b, e, wants[1..]);
    }
  }

  /** What an item with tag t stands for, and where its link leads. */
  ghost predicate Resolved(b: seq<byte>, x: nat, t: Token) {
    && !t.Pad? && !t.Other?
    && (t.Copy? || t.Alias? || t.Refer? || t.ObjectV? ==> ItemAt(b, t.target) && t.target < x)
    && (t.Copy? ==> Resolve(b, x) == Some(t.target) == Resolve(b, t.target) && TextAt(b, t.target))
    && (t.Alias? ==> Resolve(b, x) == Resolve(b, t.target) && b[t.target] >= HIGH && x < |b| && b[x] < HIGH)
    && (t.Refer? ==> b[t.target] >= HIGH)
    && (t.ObjectV? ==> TextAt(b, t.target) && Resolve(b, t.target) == Some(t.target))
    && (!t.Copy? && !t.Alias? ==> Resolve(b, x) == Some(x))
  }

  /** A fit item stands for a tag. */
  lemma FitResolve(b: seq<byte>, x: nat)
    requires Fit(b) && ItemAt(b, x)
    ensures Scan(b, x).Some? && Resolve(b, x).Some?
    ensures Resolved(b, x, Scan(b, x).value.0)
  {
    hide Scan, Path, PadAt;
    ItemParse(b, x);
    assert TagFit(b, x);
    ScanPad(b, x);
    var t := Scan(b, x).value.0;
    if t.Copy? || t.Alias? || t.Refer? || t.ObjectV? {
      var y := t.target;
      ItemParse(b, y);
      assert TagFit(b, y);
      ScanPad(b, y);
      if t.Alias? && Scan(b, y).value.0.Copy? {
        ScanPad(b, Scan(b, y).value.0.target);
      }
    }
  }

  // ----- the chunk -----

  /** The items still owed for the tag at i, once u has been written for it. */
  function Owes(b: seq<byte>, i: nat, u: Token): seq<nat>
    requires Scan(b, i).Some?
  {
    var (t, q) := Scan(b, i).value;
    match t
    case Open(_, _) => (match Chain(b, q, Wants(t)) case None => [] case Some(ks) => ks)
    case Refer(y) => if u.Refer? then [] else [y]
    case ObjectV(_, y) => [y, q]
    case _ => []
  }

  /** Position v of the chunk, before o, stands for the item y of the input and carries the track flag. */
  ghost predicate Named(b: seq<byte>, out: seq<byte>, src: map<nat, nat>, v: nat, o: nat, y: nat) {
    0 < v < o && v in src && v < |out| && out[v] >= HIGH && Resolve(b, src[v]) == Resolve(b, y)
  }

  /** u is a fair rendering, at o, of the tag at i. */
  ghost predicate Renders(b: seq<byte>, i: nat, out: seq<byte>, u: Token, o: nat, src: map<nat, nat>)
    requires Scan(b, i).Some?
  {
    var t := Scan(b, i).value.0;
    match t
    case Text(_, _) =>
      u == t || (u.Copy? && 0 < u.target < o && u.target in src && Scan(out, u.target).Some? && Scan(out, u.target).value.0 == t)
    case Refer(y) => u == Open(REFN, 0) || (u.Refer? && Named(b, out, src, u.target, o, y))
    case Alias(y) => u.Alias? && Named(b, out, src, u.target, o, y)
    case ObjectV(tag, _) => u == Open(tag, 0)
    case Copy(_) => false
    case Pad => false
    case Other(_) => false
    case _ => u == t
  }

  /** The tag at o pays the first item owed there, and owes that item's children instead. */
  ghost predicate Paid(b: seq<byte>, out: seq<byte>, o: nat, owed: map<nat, seq<nat>>, src: map<nat, nat>) {
    && o in owed && o in src && 0 < o && owed[o] != [] && Scan(out, o).Some? && Scan(out, o).value.1 in owed
    && ItemAt(b, src[o]) && Scan(b, src[o]).Some? && Same(b, owed[o][0], src[o])
    && var (u, r) := Scan(out, o).value;
    Renders(b, src[o], out, u, o, src) && owed[r] == Owes(b, src[o], u) + owed[o][1..]
  }

  /** From `lo` on, the chunk is a stream of payments. */
  ghost predicate Stream(b: seq<byte>, out: seq<byte>, lo: nat, owed: map<nat, seq<nat>>, src: map<nat, nat>) {
    && lo in owed && |out| in owed
    && (forall o :: o in owed ==> lo <= o <= |out|)
    && (forall o :: o in src ==> o in owed && o < |out|)
    && (forall o :: o in owed && o < |out| ==> Paid(b, out, o, owed, src))
  }

  lemma RendersKept(b: seq<byte>, i: nat, was: seq<byte>, out: seq<byte>, lo: nat, u: Token, o: nat,
                    owed: map<nat, seq<nat>>, src: map<nat, nat>, src': map<nat, nat>)
    requires Stream(b, was, lo, owed, src) && Scan(b, i).Some? && Renders(b, i, was, u, o, src)
    requires |was| <= |out| && forall j :: lo <= j < |was| ==> out[j] == was[j]
    requires forall v :: v in src ==> v in src' && src'[v] == src[v]
    ensures Renders(b, i, out, u, o, src')
  {
    hide Scan, Stream, Resolve;
    if (u.Copy? || u.Refer? || u.Alias?) && u.target in src {
      KeptTag(b, was, out, lo, owed, src, u.target);
    }
  }

  lemma KeptTag(b: seq<byte>, was: seq<byte>, out: seq<byte>, lo: nat, owed: map<nat, seq<nat>>, src: map<nat, nat>, o: nat)
    requires Stream(b, was, lo, owed, src) && o in src
    requires |was| <= |out| && forall j :: lo <= j < |was| ==> out[j] == was[j]
    ensures o < |was| && Scan(was, o).Some? && Scan(out, o) == Scan(was, o) && out[o] == was[o]
  {
    hide Scan, Renders, Same, ItemAt, Owes;
    assert Paid(b, was, o, owed, src);
    KeepTag(was, out, o);
  }

  /** Growing the chunk, and rewriting what lies in front of the stream, leaves the payments alone. */
  lemma PaidKept(b: seq<byte>, was: seq<byte>, out: seq<byte>, lo: nat, o: nat,
                 owed: map<nat, seq<nat>>, src: map<nat, nat>, owed': map<nat, seq<nat>>, src': map<nat, nat>)
    requires Stream(b, was, lo, owed, src) && o in owed && o < |was|
    requires |was| <= |out| && forall j :: lo <= j < |was| ==> out[j] == was[j]
    requires forall v :: v in src ==> v in src' && src'[v] == src[v]
    requires forall v :: v in owed ==> v in owed' && owed'[v] == owed[v]
    ensures Paid(b, out, o, owed', src') && Scan(out, o) == Scan(was, o)
  {
    assert Paid(b, was, o, owed, src);
    RendersKept(b, src[o], was, out, lo, Scan(was, o).value.0, o, owed, src, src');
    hide Scan, Renders, Same, ItemAt, Owes;
    KeepTag(was, out, o);
  }

  lemma StreamKept(b: seq<byte>, was: seq<byte>, out: seq<byte>, lo: nat, owed: map<nat, seq<nat>>, src: map<nat, nat>)
    requires Stream(b, was, lo, owed, src)
    requires |was| == |out| && forall j :: lo <= j < |was| ==> out[j] == was[j]
    ensures Stream(b, out, lo, owed, src)
  {
    hide Paid, Scan;
    forall o | o in owed && o < |out|
      ensures Paid(b, out, o, owed, src)
    {
      PaidKept(b, was, out, lo, o, owed, src, owed, src);
    }
  }

  /** One more tag: u, written for the item i. */
  lemma StreamGrows(b: seq<byte>, was: seq<byte>, out: seq<byte>, lo: nat, owed: map<nat, seq<nat>>, src: map<nat, nat>,
                    i: nat, u: Token)
    requires Stream(b, was, lo, owed, src) && 0 < lo
    requires |was| < |out| && out[..|was|] == was && Scan(out, |was|) == Some((u, |out|))
    requires ItemAt(b, i) && Scan(b, i).Some? && owed[|was|] != [] && Same(b, owed[|was|][0], i)
    requires Renders(b, i, out, u, |was|, src)
    ensures Stream(b, out, lo, owed[|out| := Owes(b, i, u) + owed[|was|][1..]], src[|was| := i])
  {
    hide Scan, ItemAt, Same, Owes;
    var owed', src' := owed[|out| := Owes(b, i, u) + owed[|was|][1..]], src[|was| := i];
    forall j | lo <= j < |was|
      ensures out[j] == was[j]
    {
      assert out[j] == out[..|was|][j];
    }
    forall o | o in owed' && o < |out|
      ensures Paid(b, out, o, owed', src')
    {
      if o < |was| {
        PaidKept(b, was, out, lo, o, owed, src, owed', src');
      } else {
        assert o == |was|;
      }
    }
  }

  /** One payment. */
  lemma WalkStep(b: seq<byte>, out: seq<byte>, lo: nat, owed: map<nat, seq<nat>>, src: map<nat, nat>, o: nat)
    requires Fit(b) && Stream(b, out, lo, owed, src) && o in owed && |owed[|out|]| < |owed[o]|
    ensures o < |out| && Scan(out, o).Some?
    ensures var (u, r) := Scan(out, o).value;
            && r in owed && r <= |out| && !u.Other? && (KeyLike(b, owed[o][0]) ==> Stringish(u))
            && |owed[r]| == |Wants(u)| + |owed[o]| - 1
            && owed[r][|Wants(u)|..] == owed[o][1..]
            && (forall k :: 0 <= k < |Wants(u)| && Wants(u)[k] == Key ==> KeyLike(b, owed[r][k]))
  {
    assert Paid(b, out, o, owed, src);
    OwesWants(b, src[o], out, Scan(out, o).value.0, o, src);
    hide Scan, Stream, Renders, Owes, Wants, KeyLike, ItemAt;
  }

  lemma InChunk(b: seq<byte>, out: seq<byte>, lo: nat, owed: map<nat, seq<nat>>, src: map<nat, nat>, o: nat)
    requires Stream(b, out, lo, owed, src) && o in owed
    ensures lo <= o <= |out| && |out| in owed
  {
  }

  /** What is due behind the first of several items, in front of which others have come. */
  lemma NextDue(b: seq<byte>, ws: seq<Want>, todo: seq<Want>, xs: seq<nat>, ys: seq<nat>)
    requires 0 < |todo| <= |xs| && |ys| == |ws| + |xs| - 1 && ys[|ws|..] == xs[1..]
    requires forall k :: 0 <= k < |todo| && todo[k] == Key ==> KeyLike(b, xs[k])
    requires forall k :: 0 <= k < |ws| && ws[k] == Key ==> KeyLike(b, ys[k])
    ensures forall k :: 0 <= k < |ws| + |todo| - 1 && (ws + todo[1..])[k] == Key ==> KeyLike(b, ys[k])
    ensures ys[|ws| + |todo| - 1..] == xs[|todo|..]
  {
    hide KeyLike;
    var rest := ws + todo[1..];
    forall k | 0 <= k < |rest| && rest[k] == Key
      ensures KeyLike(b, ys[k])
    {
      if k >= |ws| {
        assert ys[k] == ys[|ws|..][k - |ws|] == xs[1..][k - |ws|] == xs[1 + k - |ws|];
      }
    }
    assert ys[|ws| + |todo| - 1..] == ys[|ws|..][|todo| - 1..] == xs[1..][|todo| - 1..] == xs[|todo|..];
  }

  /** Reading the chunk pays what is owed, item by item. */
  lemma {:induction false} WalkItems(b: seq<byte>, out: seq<byte>, lo: nat, owed: map<nat, seq<nat>>, src: map<nat, nat>,
                                     o: nat, todo: seq<Want>)
    requires Fit(b) && Stream(b, out, lo, owed, src) && o in owed && |out| in owed
    requires |todo| + |owed[|out|]| <= |owed[o]|
    requires forall k :: 0 <= k < |todo| && todo[k] == Key ==> KeyLike(b, owed[o][k])
    ensures Parse(out, o, todo).Some?
    ensures var e := Parse(out, o, todo).value; e in owed && e <= |out| && owed[e] == owed[o][|todo|..]
    decreases |out| - o
  {
    hide Scan, Stream, Wants, KeyLike, Stringish, Fit;
    if todo == [] {
      InChunk(b, out, lo, owed, src, o);
    } else {
      WalkStep(b, out, lo, owed, src, o);
      var (u, r) := Scan(out, o).value;
      NextDue(b, Wants(u), todo, owed[o], owed[r]);
      WalkItems(b, out, lo, owed, src, r, Wants(u) + todo[1..]);
    }
  }

  /** As many items are owed as the written tag wants, and strings where it wants keys. */
  lemma OwesWants(b: seq<byte>, i: nat, out: seq<byte>, u: Token, o: nat, src: map<nat, nat>)
    requires Fit(b) && ItemAt(b, i) && Scan(b, i).Some? && Renders(b, i, out, u, o, src)
    ensures |Owes(b, i, u)| == |Wants(u)| && !u.Other? && (KeyLike(b, i) ==> Stringish(u))
    ensures forall k :: 0 <= k < |Wants(u)| && Wants(u)[k] == Key ==> KeyLike(b, Owes(b, i, u)[k])
    ensures forall k :: 0 <= k < |Wants(u)| ==> ItemAt(b, Owes(b, i, u)[k])
  {
    var (t, q) := Scan(b, i).value;
    FitResolve(b, i);
    Children(b, i);
    ObjectTag(b, i);
    hide Scan, ItemAt, Path, Resolve, Chain, Fit, Parse, Named;
  }

  lemma ObjectTag(b: seq<byte>, i: nat)
    requires Scan(b, i).Some?
    ensures var t := Scan(b, i).value.0; t.ObjectV? ==> Wants(Open(t.tag, 0)) == [Key, Item]
  {
  }

  /** The tags behind an item's own tag, read as its children. */
  lemma Children(b: seq<byte>, i: nat)
    requires Fit(b) && ItemAt(b, i)
    ensures Scan(b, i).Some?
    ensures var (t, q) := Scan(b, i).value;
            && Parse(b, i, [Item]) == Parse(b, q, Wants(t)) && Parse(b, i, [Item]).Some?
            && Chain(b, q, Wants(t)).Some? && Path(b, 1, q)
            && (forall k :: 0 <= k < |Wants(t)| ==> ItemAt(b, Chain(b, q, Wants(t)).value[k]))
            && (forall k :: 0 <= k < |Wants(t)| && Wants(t)[k] == Key ==> KeyLike(b, Chain(b, q, Wants(t)).value[k]))
            && (t.ObjectV? ==> ItemAt(b, q))
  {
    ItemParse(b, i);
    FitResolve(b, i);
    hide Scan, Resolve;
    ParseItem(b, i);
    var (t, q) := Scan(b, i).value;
    PathStep(b, 1, i);
    ChainItems(b, q, Wants(t));
  }

  // ----- meaning -----

  /** Every tag of the chunk is followed by its children: nothing is owed at the end that is not owed
      everywhere before. */
  ghost predicate Closed(out: seq<byte>, owed: map<nat, seq<nat>>) {
    |out| in owed && forall o :: o in owed && o < |out| ==> |owed[o]| > |owed[|out|]|
  }

  ghost predicate Split(b: seq<byte>, out: seq<byte>, lo: nat, owed: map<nat, seq<nat>>, src: map<nat, nat>) {
    Fit(b) && Stream(b, out, lo, owed, src) && Closed(out, owed)
  }

  /** The positions ls are where the items of xs, one after the other, are the first owed. */
  ghost predicate Starts(ls: seq<nat>, xs: seq<nat>, owed: map<nat, seq<nat>>, end: nat) {
    |ls| <= |xs| && forall k :: 0 <= k < |ls| ==> ls[k] in owed && ls[k] < end && owed[ls[k]] == xs[k..]
  }

  lemma StartsMore(o: nat, ls: seq<nat>, xs: seq<nat>, owed: map<nat, seq<nat>>, end: nat)
    requires xs != [] && o in owed && o < end && owed[o] == xs && Starts(ls, xs[1..], owed, end)
    ensures Starts([o] + ls, xs, owed, end)
  {
    var ms: seq<nat> := [o] + ls;
    forall k | 0 <= k < |ms|
      ensures ms[k] in owed && ms[k] < end && owed[ms[k]] == xs[k..]
    {
      if k > 0 {
        assert ms[k] == ls[k - 1] && xs[1..][k - 1..] == xs[k..];
      }
    }
  }

  /** Where each of the items owed at o begins. */
  lemma {:induction false} ChainWalk(b: seq<byte>, out: seq<byte>, lo: nat, owed: map<nat, seq<nat>>, src: map<nat, nat>,
                                     o: nat, wants: seq<Want>)
    requires Fit(b) && Stream(b, out, lo, owed, src) && o in owed && |out| in owed
    requires |wants| + |owed[|out|]| <= |owed[o]|
    requires forall k :: 0 <= k < |wants| && wants[k] == Key ==> KeyLike(b, owed[o][k])
    ensures Chain(out, o, wants).Some? && Starts(Chain(out, o, wants).value, owed[o], owed, |out|)
    decreases |wants|
  {
    hide Scan, Stream, KeyLike, Parse, Chain, Fit, Wants, Stringish, Starts;
    if wants == [] {
      ChainEmpty(out, o, owed[o], owed);
    } else {
      WalkStep(b, out, lo, owed, src, o);
      WalkItems(b, out, lo, owed, src, o, [wants[0]]);
      var e, ws := Parse(out, o, [wants[0]]).value, wants[1..];
      NextDue(b, [], wants, owed[o], owed[e]);
      ChainWalk(b, out, lo, owed, src, e, ws);
      assert wants == [wants[0]] + ws;
      ChainStep(out, o, e, wants[0], ws);
      StartsMore(o, Chain(out, e, ws).value, owed[o], owed, |out|);
    }
  }

  lemma ChainEmpty(b: seq<byte>, p: nat, xs: seq<nat>, owed: map<nat, seq<nat>>)
    ensures Chain(b, p, []) == Some([]) && Starts([], xs, owed, |b|)
  {
  }

  /** An item of the input and a position of the chunk that stand for the same thing. */
  ghost predicate Alike(b: seq<byte>, out: seq<byte>, src: map<nat, nat>, x: nat, y: nat) {
    && y in src && ItemAt(b, x) && Resolve(b, x).Some?
    && (Resolve(b, x) == Resolve(b, src[y]) || SameText(b, out, Resolve(b, x).value, y))
  }

  predicate SameText(b: seq<byte>, out: seq<byte>, r: nat, y: nat) {
    TextAt(b, r) && TextAt(out, y) && Scan(b, r).value.0 == Scan(out, y).value.0
  }

  /** The facts about one position of the chunk. */
  lemma PaidAt(b: seq<byte>, out: seq<byte>, lo: nat, owed: map<nat, seq<nat>>, src: map<nat, nat>, y: nat)
    requires Fit(b) && Stream(b, out, lo, owed, src) && y in src
    ensures Paid(b, out, y, owed, src) && y in owed && y < |out|
    ensures Scan(out, y).Some? && !Scan(out, y).value.0.Pad? && !PadAt(out, y)
    ensures Resolved(b, src[y], Scan(b, src[y]).value.0)
  {
    assert Paid(b, out, y, owed, src);
    FitResolve(b, src[y]);
    ScanPad(out, y);
  }

  lemma LinkResolves(b: seq<byte>, p: nat)
    requires Scan(b, p).Some?
    ensures var t := Scan(b, p).value.0;
            && (t.Copy? && 0 < t.target < p && TextAt(b, t.target) ==> Resolve(b, p) == Some(t.target))
            && (t.Alias? && 0 < t.target < p && !PadAt(b, t.target) ==> Resolve(b, p) == Resolve(b, t.target))
            && (!t.Copy? && !t.Alias? && !t.Pad? ==> Resolve(b, p) == Some(p))
  {
  }

  lemma {:induction false} AlikeResolve(b: seq<byte>, out: seq<byte>, lo: nat, owed: map<nat, seq<nat>>, src: map<nat, nat>,
                                        x: nat, y: nat)
    requires Split(b, out, lo, owed, src) && Alike(b, out, src, x, y)
    ensures Resolve(out, y).Some? && Settled(out, Resolve(out, y).value)
    ensures Alike(b, out, src, x, Resolve(out, y).value)
    decreases y
  {
    PaidAt(b, out, lo, owed, src, y);
    LinkResolves(out, y);
    if SameText(b, out, Resolve(b, x).value, y) {
    } else {
      hide Scan, Stream, Owes, Resolve, Path, ItemAt, PadAt;
      var (u, r) := Scan(out, y).value;
      if u.Alias? {
        PaidAt(b, out, lo, owed, src, u.target);
        AlikeResolve(b, out, lo, owed, src, x, u.target);
      }
    }
  }

  lemma AlikeKids(b: seq<byte>, out: seq<byte>, lo: nat, owed: map<nat, seq<nat>>, src: map<nat, nat>, y: nat)
    requires Split(b, out, lo, owed, src) && y in src && Scan(out, y).Some?
    ensures var (u, r) := Scan(out, y).value;
            && Scan(b, src[y]).Some? && Chain(out, r, Wants(u)).Some?
            && var ks, ls := Owes(b, src[y], u), Chain(out, r, Wants(u)).value;
            |ks| == |ls| && forall k :: 0 <= k < |ks| ==> Alike(b, out, src, ks[k], ls[k])
  {
    PaidAt(b, out, lo, owed, src, y);
    WalkStep(b, out, lo, owed, src, y);
    var (u, r) := Scan(out, y).value;
    OwesWants(b, src[y], out, u, y, src);
    ChainWalk(b, out, lo, owed, src, r, Wants(u));
    hide Scan, Owes, Resolve, Path, ItemAt, Wants, Chain, Renders, KeyLike, Resolved;
    var ks, ls := Owes(b, src[y], u), Chain(out, r, Wants(u)).value;
    forall k | 0 <= k < |ks|
      ensures Alike(b, out, src, ks[k], ls[k])
    {
      assert owed[ls[k]] == owed[r][k..];
      assert owed[ls[k]][0] == owed[r][k] == ks[k];
      PaidAt(b, out, lo, owed, src, ls[k]);
    }
  }

  lemma AlikeHead(b: seq<byte>, out: seq<byte>, lo: nat, owed: map<nat, seq<nat>>, src: map<nat, nat>, x: nat, y: nat)
    requires Split(b, out, lo, owed, src) && Alike(b, out, src, x, y) && Settled(out, y)
    ensures var r := Resolve(b, x).value;
            && Head(b, r).Some? && Head(out, y).Some?
            && var n, l := Head(b, r).value, Head(out, y).value;
            && n.shape == l.shape && |n.kids| == |l.kids|
            && forall k :: 0 <= k < |n.kids| ==> Alike(b, out, src, n.kids[k], l.kids[k])
  {
    var r := Resolve(b, x).value;
    if SameText(b, out, r, y) {
    } else {
      PaidAt(b, out, lo, owed, src, y);
      AlikeKids(b, out, lo, owed, src, y);
      assert r == src[y];
      Children(b, r);
      var t := Scan(b, r).value.0;
      if t.Refer? {
        ScanPad(b, t.target);
        FitResolve(b, t.target);
        if Scan(out, y).value.0.Refer? {
          PaidAt(b, out, lo, owed, src, Scan(out, y).value.0.target);
        }
      }
      hide Scan, Resolve, Path, ItemAt, PadAt, Stream, Closed, Chain;
    }
  }

  /** What the splitter writes means what it was written for: at every depth the item and its rendering
      denote the same tree, and nothing in it is malformed. */
  lemma {:induction false} SplitMeaning(b: seq<byte>, out: seq<byte>, lo: nat, owed: map<nat, seq<nat>>, src: map<nat, nat>,
                                        x: nat, y: nat, d: nat)
    requires Split(b, out, lo, owed, src) && Alike(b, out, src, x, y)
    ensures Meaning(b, x, d) == Meaning(out, y, d)
    ensures Clean(Meaning(b, x, d))
    decreases d
  {
    hide Scan, Split, Alike, Resolve, Head, Meaning;
    if d == 0 {
      MeaningCut(b, x);
      MeaningCut(out, y);
    } else {
      AlikeResolve(b, out, lo, owed, src, x, y);
      AlikeHead(b, out, lo, owed, src, x, Resolve(out, y).value);
      assert Resolve(b, x).Some? by { AlikeSome(b, out, src, x, y); }
      MeaningStep(b, x, d);
      MeaningStep(out, y, d);
      var n, l := Head(b, Resolve(b, x).value).value, Head(out, Resolve(out, y).value).value;
      forall k | 0 <= k < |n.kids|
        ensures Meaning(b, n.kids[k], d - 1) == Meaning(out, l.kids[k], d - 1) && Clean(Meaning(b, n.kids[k], d - 1))
      {
        SplitMeaning(b, out, lo, owed, src, n.kids[k], l.kids[k], d - 1);
      }
      assert Meaning(b, x, d).kids == Meaning(out, y, d).kids;
    }
  }

  lemma AlikeSome(b: seq<byte>, out: seq<byte>, src: map<nat, nat>, x: nat, y: nat)
    requires Alike(b, out, src, x, y)
    ensures Resolve(b, x).Some?
  {
  }
}
