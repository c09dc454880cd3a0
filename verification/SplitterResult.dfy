/** What the chunks of a split document mean. */
module SplitterResult {
  import opened Varint
  import opened VarintIO
  import opened Wire
  import opened Mapping
  import opened Splitting
  import opened SplitterState

  /** Where the elements of a top-level array begin, and how many there are. */
  function Root(doc: seq<byte>): (r: Option<(nat, nat)>) {
    match Scan(doc, 1)
    case Some((Open(tag, n), q)) =>
      if tag == ARRAYREF then Some((q, n))
      else if tag == REFN && doc[1] == REFN && q < |doc| && doc[q] == ARRAY then
        match Scan(doc, q)
        case Some((Open(tag', n'), q')) => Some((q', n'))
        case _ => None
      else None
    case _ => None
  }

  /** The documents the splitter is meant for: an array of fit items. */
  ghost predicate Splittable(doc: seq<byte>) {
    Fit(doc) && Root(doc).Some?
  }

  /** Where the elements of the array begin, one after the other. */
  function Elements(doc: seq<byte>): seq<nat> {
    match Root(doc)
    case None => []
    case Some((q, n)) =>
      match Chain(doc, q, Items(n))
      case None => []
      case Some(ks) => ks
  }

  /** What the items at several places mean. */
  ghost function TreesAt(b: seq<byte>, xs: seq<nat>, d: nat): (ts: seq<Tree>)
    ensures |ts| == |xs|
  {
    seq(|xs|, k requires 0 <= k < |xs| => Meaning(b, xs[k], d))
  }

  /** The body denotes the array of what the items at xs denote in doc, to depth d; and that is well formed. */
  ghost predicate Holds(body: seq<byte>, doc: seq<byte>, xs: seq<nat>, d: nat) {
    && Meaning(body, 1, d + 2) == ArrayOf(TreesAt(doc, xs, d))
    && forall k :: 0 <= k < |xs| ==> Clean(TreesAt(doc, xs, d)[k])
  }

  /** The same, for n elements of the document from `done` on. */
  ghost predicate HoldsElements(body: seq<byte>, doc: seq<byte>, done: nat, n: nat, d: nat)
    requires done + n <= |Elements(doc)|
  {
    Holds(body, doc, Elements(doc)[done..done + n], d)
  }

  /** The root of a splittable document. */
  lemma RootFits(doc: seq<byte>)
    requires Splittable(doc)
    ensures var (q, n) := Root(doc).value;
            && 1 <= q && n <= MAX_COUNT && OnPath(doc, q)
            && Parse(doc, q, Items(n)).Some? && Parse(doc, q, Items(n)).value <= End(doc)
            && Chain(doc, q, Items(n)) == Some(Elements(doc)) && |Elements(doc)| == n
            && forall k :: 0 <= k < n ==> ItemAt(doc, Elements(doc)[k])
  {
    PathSelf(doc, 1);
    RootTag(doc);
    ItemParse(doc, 1);
    Children(doc, 1);
    OpenPlace(doc, 1);
    hide Scan, Path, Chain, OnPath;
    var (t, r) := Scan(doc, 1).value;
    if t.tag == REFN {
      assert Wants(t) == [Item];
      ItemParse(doc, r) by { FirstChild(doc, r); }
      Children(doc, r);
      OpenPlace(doc, r);
    }
  }

  /** The only child of the top-level reference. */
  lemma FirstChild(doc: seq<byte>, r: nat)
    requires Path(doc, 1, r) && 1 <= r && Parse(doc, r, [Item]).Some? && Parse(doc, r, [Item]).value <= End(doc)
    ensures ItemAt(doc, r)
  {
    hide Scan, Path;
  }

  predicate ShortRoot(doc: seq<byte>, n: nat) {
    && Root(doc) == Some((2, n)) && Wants(Open(ARRAYREF, n)) == Items(n) && n <= 15
    && 1 < |doc| && doc[1] % HIGH == ARRAYREF + n
  }

  predicate LongRoot(doc: seq<byte>) {
    && 2 < |doc| && doc[1] == REFN && doc[2] == ARRAY && Scan(doc, 2).Some? && Read(doc, 3).Some?
    && var (u, q) := Scan(doc, 2).value;
    && u.Open? && u.tag == ARRAY && Root(doc) == Some((q, u.count)) && Wants(u) == Items(u.count)
    && u.count <= MAX_COUNT && Read(doc, 3) == Some((u.count, q))
  }

  lemma RootTag(doc: seq<byte>)
    requires Splittable(doc)
    ensures ItemAt(doc, 1) && Scan(doc, 1).Some?
    ensures var (t, q) := Scan(doc, 1).value;
            && t.Open? && (t.tag == ARRAYREF || t.tag == REFN) && q == 2
            && (t.tag == ARRAYREF ==> ShortRoot(doc, t.count))
            && (t.tag == REFN ==> LongRoot(doc))
  {
    PathSelf(doc, 1);
    assert Parse(doc, 1, [Item]).Some?;
  }

  /** The meaning of the whole document, in terms of its elements. */
  lemma RootMeaning(doc: seq<byte>, d: nat)
    requires Splittable(doc)
    ensures var trees := TreesAt(doc, Elements(doc), d);
            || Meaning(doc, 1, d + 2) == ArrayOf(trees)
            || Meaning(doc, 1, d + 1) == Tree(Open(ARRAYREF, |trees|), trees)
  {
    RootHead(doc);
    var trees := TreesAt(doc, Elements(doc), d);
    var t := Scan(doc, 1).value.0;
    hide Scan, Head, Resolve, Elements, Fit, Root;
    if t.tag == ARRAYREF {
      MeaningStep(doc, 1, d + 1);
      assert Meaning(doc, 1, d + 1).kids == trees;
    } else {
      MeaningStep(doc, 1, d + 2);
      MeaningStep(doc, 2, d + 1);
      assert Meaning(doc, 2, d + 1).kids == trees;
      assert Meaning(doc, 1, d + 2).kids == [Meaning(doc, 2, d + 1)];
    }
  }

  lemma RootHead(doc: seq<byte>)
    requires Splittable(doc)
    ensures Scan(doc, 1).Some? && Scan(doc, 1).value.0.Open? && Resolve(doc, 1) == Some(1)
    ensures var t, n := Scan(doc, 1).value.0, |Elements(doc)|;
            if t.tag == ARRAYREF then Head(doc, 1) == Some(Node(Open(ARRAYREF, n), Elements(doc)))
            else
              && Head(doc, 1) == Some(Node(Open(REFN, 0), [2])) && Resolve(doc, 2) == Some(2)
              && Head(doc, 2) == Some(Node(Open(ARRAY, n), Elements(doc)))
  {
    RootTag(doc);
    RootFits(doc);
    FitResolve(doc, 1);
    if Scan(doc, 1).value.0.tag == REFN {
      RefTag(doc, 1);
      Children(doc, 1);
      FirstChild(doc, 2);
      FitResolve(doc, 2);
      OneChild(doc, 2);
    }
    hide Scan, Path, Chain, Fit, Resolve;
  }

  lemma RefTag(b: seq<byte>, p: nat)
    requires Scan(b, p).Some? && Scan(b, p).value.0.Open? && Scan(b, p).value.0.tag == REFN
    ensures Scan(b, p).value.0 == Open(REFN, 0)
  {
  }

  lemma OneChild(b: seq<byte>, p: nat)
    requires Parse(b, p, [Item]).Some?
    ensures Chain(b, p, [Item]) == Some([p])
  {
    hide Scan, Parse;
    assert [Item][1..] == [];
    assert Chain(b, Parse(b, p, [Item]).value, []) == Some([]);
    assert [p] + [] == [p];
  }

  /** A chunk: the array it announces, and the elements it holds. */
  ghost predicate ChunkOf(doc: seq<byte>, body: seq<byte>, lo: nat, owed: map<nat, seq<nat>>, src: map<nat, nat>, n: nat) {
    && Split(doc, body, lo, owed, src) && n + |owed[|body|]| == |owed[lo]|
    && 3 < lo <= |body| && body[1] == REFN && body[2] == ARRAY && Read(body, 3) == Some((n, lo)) && n <= MAX_COUNT
    && forall k :: 0 <= k < n ==> ItemAt(doc, owed[lo][k])
  }

  lemma ChunkScan(doc: seq<byte>, body: seq<byte>, lo: nat, owed: map<nat, seq<nat>>, src: map<nat, nat>, n: nat)
    requires ChunkOf(doc, body, lo, owed, src, n)
    ensures Scan(body, 1) == Some((Open(REFN, 0), 2)) && Scan(body, 2) == Some((Open(ARRAY, n), lo))
    ensures !PadAt(body, 1) && !PadAt(body, 2)
  {
    hide Split;
  }

  /** The chunk holds what it announces, and nothing behind it. */
  lemma ChunkParse(doc: seq<byte>, body: seq<byte>, lo: nat, owed: map<nat, seq<nat>>, src: map<nat, nat>, n: nat)
    requires ChunkOf(doc, body, lo, owed, src, n)
    ensures Parse(body, lo, Items(n)) == Some(|body|)
    ensures Chain(body, lo, Items(n)).Some? && Starts(Chain(body, lo, Items(n)).value, owed[lo], owed, |body|)
    ensures Parse(body, 1, [Item]) == Some(|body|)
    ensures Head(body, 1) == Some(Node(Open(REFN, 0), [2]))
    ensures Head(body, 2) == Some(Node(Open(ARRAY, n), Chain(body, lo, Items(n)).value))
    ensures Resolve(body, 1) == Some(1) && Resolve(body, 2) == Some(2)
  {
    ChunkScan(doc, body, lo, owed, src, n);
    ChunkWalk(doc, body, lo, owed, src, n);
    LinkResolves(body, 1);
    LinkResolves(body, 2);
    hide Scan, Resolve, Split, Starts;
    assert Wants(Open(REFN, 0)) == [Item] && Wants(Open(ARRAY, n)) == Items(n);
    ParseItem(body, 1);
    ParseItem(body, 2);
    OneChild(body, 2);
  }

  lemma ChunkWalk(doc: seq<byte>, body: seq<byte>, lo: nat, owed: map<nat, seq<nat>>, src: map<nat, nat>, n: nat)
    requires ChunkOf(doc, body, lo, owed, src, n)
    ensures Parse(body, lo, Items(n)) == Some(|body|)
    ensures Chain(body, lo, Items(n)).Some? && Starts(Chain(body, lo, Items(n)).value, owed[lo], owed, |body|)
  {
    hide Scan, Starts, Paid, Parse, Chain, KeyLike, ItemAt;
    WalkItems(doc, body, lo, owed, src, lo, Items(n));
    ChainWalk(doc, body, lo, owed, src, lo, Items(n));
  }

  /** The last of several items begins where those before it end. */
  lemma {:induction false} ChainLast(b: seq<byte>, p: nat, n: nat)
    requires n > 0 && Chain(b, p, Items(n)).Some?
    ensures Parse(b, p, Items(n - 1)) == Some(Chain(b, p, Items(n)).value[n - 1])
    decreases n
  {
    hide Scan, Parse;
    assert Items(n)[1..] == Items(n - 1) && Items(n)[0] == Item;
    if n == 1 {
      EmptyItems(b, p);
    } else {
      var e := Parse(b, p, [Item]).value;
      ChainLast(b, e, n - 1);
      assert Items(n - 1) == [Item] + Items(n - 2);
      ParseSplit(b, p, [Item], Items(n - 2));
    }
  }

  lemma EmptyItems(b: seq<byte>, p: nat)
    ensures Parse(b, p, Items(0)) == Some(p)
  {
  }

  /** The last element of a chunk begins where as little was owed first as one more than at the end. */
  lemma LastBegins(doc: seq<byte>, body: seq<byte>, lo: nat, owed: map<nat, seq<nat>>, src: map<nat, nat>, n: nat, mark: nat)
    requires ChunkOf(doc, body, lo, owed, src, n) && n > 0 && Sealed(body, lo, owed, mark, |owed[|body|]| + 1)
    ensures Chain(body, lo, Items(n)).Some? && Chain(body, lo, Items(n)).value[n - 1] == mark
  {
    ChunkWalk(doc, body, lo, owed, src, n);
    ChainLast(body, lo, n);
    hide Scan, Parse, Chain, Paid, Starts, ItemAt, Fit, KeyLike;
    WalkItems(doc, body, lo, owed, src, lo, Items(n - 1));
    var e := Parse(body, lo, Items(n - 1)).value;
    if mark < e {
      WalkFirst(doc, body, lo, owed, src, lo, Items(n - 1), mark);
    }
  }

  /** The chunk denotes the array of what its elements denote in the document. */
  lemma ChunkMeaning(doc: seq<byte>, body: seq<byte>, lo: nat, owed: map<nat, seq<nat>>, src: map<nat, nat>, n: nat, d: nat)
    requires ChunkOf(doc, body, lo, owed, src, n)
    ensures Holds(body, doc, owed[lo][..n], d)
  {
    ChunkParse(doc, body, lo, owed, src, n);
    var xs := owed[lo][..n];
    var ls := Chain(body, lo, Items(n)).value;
    forall k | 0 <= k < n
      ensures Meaning(body, ls[k], d) == Meaning(doc, xs[k], d) && Clean(Meaning(doc, xs[k], d))
    {
      AlikeElement(doc, body, lo, owed, src, ls, n, k);
      SplitMeaning(doc, body, lo, owed, src, xs[k], ls[k], d);
    }
    hide Scan, ChunkOf, Parse, Chain, Resolve, Head, Meaning, Starts;
    MeaningStep(body, 1, d + 2);
    MeaningStep(body, 2, d + 1);
    assert Meaning(body, 2, d + 1).kids == TreesAt(doc, xs, d);
    assert Meaning(body, 1, d + 2).kids == [Meaning(body, 2, d + 1)];
  }

  lemma AlikeElement(doc: seq<byte>, body: seq<byte>, lo: nat, owed: map<nat, seq<nat>>, src: map<nat, nat>,
                     ls: seq<nat>, n: nat, k: nat)
    requires ChunkOf(doc, body, lo, owed, src, n) && |ls| == n && k < n && Starts(ls, owed[lo], owed, |body|)
    ensures Alike(doc, body, src, owed[lo][..n][k], ls[k])
  {
    hide Scan, Resolve, ItemAt, Owes, Resolved;
    assert owed[ls[k]] == owed[lo][k..];
    assert owed[ls[k]][0] == owed[lo][k];
    PaidAt(doc, body, lo, owed, src, ls[k]);
    FitResolve(doc, owed[lo][k]);
  }

  // ----- the size of a chunk -----

  /** A chunk of n elements, the first of which begins at `front`: without the last of them it would be smaller
      than the limit, and unless it is the last chunk it is not. */
  ghost predicate Sized(body: seq<byte>, front: nat, n: nat, limit: nat, last: bool) {
    && 0 < n && Chain(body, front, Items(n)).Some?
    && (n > 1 ==> Chain(body, front, Items(n)).value[n - 1] < front + limit)
    && (!last ==> |body| >= front + limit)
  }

  lemma SealedSame(was: seq<byte>, out: seq<byte>, lo: nat, owed: map<nat, seq<nat>>, mark: nat, left: nat)
    requires Sealed(was, lo, owed, mark, left) && |was| == |out| && forall j :: lo <= j < |was| ==> out[j] == was[j]
    ensures Sealed(out, lo, owed, mark, left)
  {
    PathSame(was, out, lo, mark);
    hide Path;
  }

  // ----- all chunks together -----

  /** The elements of a chunk, decoded. */
  function Decoded(chunk: Tree): (ts: seq<Tree>) {
    if chunk.Tree? && |chunk.kids| == 1 && chunk.kids[0].Tree? then chunk.kids[0].kids else []
  }

  /** The elements of all chunks, decoded to depth d, one after the other. */
  ghost function Gathered(chunks: seq<seq<byte>>, d: nat): seq<Tree> {
    if chunks == [] then []
    else Gathered(chunks[..|chunks| - 1], d) + Decoded(Meaning(chunks[|chunks| - 1], 1, d + 2))
  }

  /** One more chunk, holding the next n elements. */
  lemma GatheredNext(doc: seq<byte>, chunks: seq<seq<byte>>, body: seq<byte>, done: nat, n: nat, d: nat)
    requires done + n <= |Elements(doc)|
    requires Gathered(chunks, d) == TreesAt(doc, Elements(doc)[..done], d)
    requires HoldsElements(body, doc, done, n, d)
    ensures Gathered(chunks + [body], d) == TreesAt(doc, Elements(doc)[..done + n], d)
  {
    hide Meaning, Elements;
    var es := Elements(doc);
    assert (chunks + [body])[..|chunks|] == chunks;
    assert es[..done + n] == es[..done] + es[done..done + n];
    var ts := TreesAt(doc, es[done..done + n], d);
    assert Decoded(ArrayOf(ts)) == ts;
  }

  /** At the start, what is pending are the elements. */
  lemma RootPending(doc: seq<byte>, q: nat, n: nat)
    requires Splittable(doc) && Root(doc) == Some((q, n))
    ensures Pending(doc, q, Values(n)).Some? && OnPath(doc, q) && n == |Elements(doc)| <= MAX_COUNT
    ensures SameAll(doc, Elements(doc)[0..], Pending(doc, q, Values(n)).value)
  {
    RootFits(doc);
    hide Scan, Fit, Root, Elements, ItemAt;
    var e := Parse(doc, q, Items(n)).value;
    assert Pending(doc, e, []) == Some([]);
    PendingValues(doc, q, [], Items(n));
    assert [] + Values(n) == Values(n);
    assert Elements(doc) + [] == Elements(doc) == Elements(doc)[0..];
    SameSelf(doc, Elements(doc));
  }

  // ----- links of a chunk -----

  /** The tag at q points, if at all, at an earlier tag of the same chunk: REFP and ALIAS at one with the
      track flag, COPY at a string. */
  ghost predicate LinkOk(body: seq<byte>, lo: nat, q: nat) {
    Scan(body, q).Some? ==>
      var t := Scan(body, q).value.0;
      && !t.ObjectV? && !t.Pad? && !t.Other?
      && (t.Refer? || t.Alias? ==> lo <= t.target < q && body[t.target] >= HIGH)
      && (t.Copy? ==> lo <= t.target < q && TextAt(body, t.target))
  }

  ghost predicate LinksOk(body: seq<byte>, lo: nat) {
    forall q :: Path(body, lo, q) ==> LinkOk(body, lo, q)
  }

  /** Reading the chunk tag by tag meets only positions at which something is owed. */
  lemma {:induction false} PathOwed(doc: seq<byte>, body: seq<byte>, lo: nat, owed: map<nat, seq<nat>>, src: map<nat, nat>,
                                    p: nat, q: nat)
    requires Stream(doc, body, lo, owed, src) && p in owed && Path(body, p, q) && q < |body|
    ensures q in owed
    decreases |body| - p
  {
    if p != q {
      assert p < |body|;
      assert Paid(doc, body, p, owed, src);
      hide Scan, Stream, Paid;
      PathOwed(doc, body, lo, owed, src, Scan(body, p).value.1, q);
    }
  }

  lemma ChunkLinks(doc: seq<byte>, body: seq<byte>, lo: nat, owed: map<nat, seq<nat>>, src: map<nat, nat>)
    requires Split(doc, body, lo, owed, src) && lo in owed
    ensures LinksOk(body, lo)
  {
    forall q | Path(body, lo, q)
      ensures LinkOk(body, lo, q)
    {
      if Scan(body, q).Some? {
        PathOwed(doc, body, lo, owed, src, lo, q);
        assert q in src;
        PaidAt(doc, body, lo, owed, src, q);
        LinkPaid(doc, body, lo, owed, src, q);
      }
    }
  }

  lemma LinkPaid(doc: seq<byte>, body: seq<byte>, lo: nat, owed: map<nat, seq<nat>>, src: map<nat, nat>, q: nat)
    requires Split(doc, body, lo, owed, src) && q in src && Paid(doc, body, q, owed, src)
    ensures LinkOk(body, lo, q)
  {
    hide Scan, Resolve, Owes, ItemAt, Same, Path;
    var t, u := Scan(doc, src[q]).value.0, Scan(body, q).value.0;
    assert u.Refer? || u.Alias? || u.Copy? ==> u.target in src;
    FitResolve(doc, src[q]);
  }

  // ----- the count -----

  lemma {:induction false} WriteHolds(n: nat)
    ensures n < Pow128(|Write(n)|)
    decreases n
  {
    if n >= HIGH {
      WriteHolds(n / HIGH);
    }
  }

  /** A smaller count fits where a larger one was written. */
  lemma CountRoom(n: nat, most: nat)
    requires n <= most <= MAX_COUNT
    ensures n < Pow128(|Write(most)|) && 1 <= |Write(most)| <= MAX_BYTES && n < WORD
  {
    WriteHolds(most);
    WordFits();
    WriteLength(most, MAX_BYTES);
  }

  /** At level zero the chunk owes exactly the elements behind those it holds. */
  lemma ElementsLeft(doc: seq<byte>, out: seq<byte>, lo: nat, owed: map<nat, seq<nat>>, src: map<nat, nat>, n: nat)
    requires Split(doc, out, lo, owed, src) && lo in owed && n + |owed[|out|]| == |owed[lo]|
    ensures owed[|out|] == owed[lo][n..]
  {
    hide Scan, Paid, Parse, KeyLike, Fit;
    WalkItems(doc, out, lo, owed, src, lo, Items(n));
  }
}
