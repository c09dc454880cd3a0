/** What a finished merge means. */
module MergerResult {
  import opened Varint
  import opened Wire
  import opened Mapping
  import opened MergerState
  import opened Faults

  /** Where the count goes, over the padding. */
  const COUNT_AT := 3

  /** An empty body. */
  const NOTHING: seq<byte> := [0]

  /** The body with the number of documents written over its padding. */
  function Finished(buf: seq<byte>, n: nat): (body: seq<byte>)
    requires COUNT_AT + |Write(n)| <= |buf|
    ensures |body| == |buf|
  {
    buf[..COUNT_AT] + Write(n) + buf[COUNT_AT + |Write(n)|..]
  }

  lemma CountFits(n: nat)
    requires n < 0x1_0000_0000
    ensures |Write(n)| <= 5
  {
    assert Pow128(2) == HIGH * HIGH;
    assert Pow128(4) == HIGH * HIGH * Pow128(2);
    assert Pow128(5) == HIGH * Pow128(4);
    WriteLength(n, 5);
  }

  /** How many bytes several documents have. */
  function Bytes(docs: seq<seq<byte>>): nat {
    if docs == [] then 0 else Bytes(docs[..|docs| - 1]) + |docs[|docs| - 1]|
  }

  lemma {:induction false} BytesPrefix(docs: seq<seq<byte>>, n: nat)
    requires n <= |docs|
    ensures Bytes(docs[..n]) <= Bytes(docs)
    decreases |docs|
  {
    if n < |docs| {
      BytesPrefix(docs[..|docs| - 1], n);
      assert docs[..|docs| - 1][..n] == docs[..n];
    } else {
      assert docs[..n] == docs;
    }
  }

  lemma BytesNext(docs: seq<seq<byte>>, n: nat)
    requires n < |docs|
    ensures Bytes(docs[..n + 1]) == Bytes(docs[..n]) + |docs[n]| && Bytes(docs[..n + 1]) <= Bytes(docs)
  {
    BytesPrefix(docs, n + 1);
    assert docs[..n + 1][..n] == docs[..n];
  }

  /** How many items the first k of them hold. */
  function Total(docs: seq<Doc>, k: nat): nat
    requires k <= |docs|
  {
    if k == 0 then 0 else Total(docs, k - 1) + docs[k - 1].part.n
  }

  /** What the items of a part mean, each on its own. */
  ghost function PartTrees(p: Piece, d: nat): (ts: seq<Tree>) {
    match Chain(p.inp, p.at, Items(p.n))
    case None => []
    case Some(ks) => seq(|ks|, j requires 0 <= j < |ks| => Meaning(p.inp, ks[j], d))
  }

  /** The same for the first k of several parts. */
  ghost function TreesOf(parts: seq<Piece>, k: nat, d: nat): seq<Tree>
    requires k <= |parts|
  {
    if k == 0 then [] else TreesOf(parts, k - 1, d) + PartTrees(parts[k - 1], d)
  }

  ghost function AllTrees(parts: seq<Piece>, d: nat): seq<Tree> {
    TreesOf(parts, |parts|, d)
  }

  /** A finished body, before looking inside: its prelude, its padding, and its documents. */
  ghost predicate Laid(body: seq<byte>, docs: seq<Doc>, kept: set<nat>, mode: Mode, w: nat) {
    && 1 <= w <= 5 && FIRST <= |body| && |body| == Start(docs, |docs|)
    && Scan(body, 1) == Some((Open(REFN, 0), 2))
    && Scan(body, 2) == Some((Open(ARRAY, Total(docs, |docs|)), COUNT_AT + w))
    && (forall j :: COUNT_AT + w <= j < FIRST ==> body[j] == PAD)
    && DocsOk(docs, body, kept, mode) && Flagged(body, kept)
  }

  /** The document in hand is one well-formed item, its class names spelled out, and its part was read to
      its end. */
  ghost predicate Whole(d: Doc) {
    && Parse(d.part.inp, 1, [Item]) == Some(d.end) && Spelled(d.part.inp, d.end)
    && Parse(d.part.inp, d.part.at, Items(d.part.n)) == Some(d.end)
  }

  ghost predicate AllWhole(docs: seq<Doc>) {
    forall k :: 0 <= k < |docs| ==> Whole(docs[k])
  }

  ghost predicate AllKept(docs: seq<Doc>, body: seq<byte>) {
    forall k :: 0 <= k < |docs| ==> FormsKept(docs[k].part.inp, body, docs[k].img)
  }

  lemma FinishedBytes(buf: seq<byte>, n: nat)
    requires FIRST <= |buf| && buf[..FIRST] == PRELUDE && n <= MAX_COUNT
    ensures var w := |Write(n)|;
            && 1 <= w <= 5
            && var body := Finished(buf, n);
            && Scan(body, 1) == Some((Open(REFN, 0), 2))
            && Scan(body, 2) == Some((Open(ARRAY, n), COUNT_AT + w))
            && (forall j :: COUNT_AT + w <= j < FIRST ==> body[j] == PAD)
            && (forall j :: FIRST <= j < |buf| ==> body[j] == buf[j])
  {
    hide Scan, Read;
    CountFits(n);
    var w := |Write(n)|;
    var body := Finished(buf, n);
    assert body[1] == buf[..FIRST][1] == REFN && body[2] == buf[..FIRST][2] == ARRAY;
    assert body[COUNT_AT..COUNT_AT + w] == Write(n);
    ReadWrite(body, COUNT_AT, n);
    OpenScan(body, 1);
    OpenScan(body, 2);
    forall j | COUNT_AT + w <= j < FIRST
      ensures body[j] == PAD
    {
      assert body[j] == buf[j] == buf[..FIRST][j];
    }
  }

  lemma FinishedLaid(buf: seq<byte>, marks: set<nat>, kept: set<nat>, done: Ledger,
                     strings: seq<Entry>, classes: seq<Entry>, mode: Mode)
    requires Core(buf, |buf|, marks, kept, done, strings, classes, mode) && Total(done.docs, |done.docs|) <= MAX_COUNT
    ensures |Write(Total(done.docs, |done.docs|))| <= 5
    ensures var n := Total(done.docs, |done.docs|); Laid(Finished(buf, n), done.docs, kept, mode, |Write(n)|)
    ensures SameTags(buf, Finished(buf, Total(done.docs, |done.docs|)), kept)
  {
    var n := Total(done.docs, |done.docs|);
    FinishedBytes(buf, n);
    hide Scan, Finished, DocsOk, Total;
    var body := Finished(buf, n);
    forall x | x in kept
      ensures FIRST <= x && Scan(buf, x).Some? && Scan(buf, x).value.1 <= |buf|
    {
    }
    assert Marked(buf, kept);
    KeepTagsFrom(buf, body, FIRST, |buf|, kept);
    DocsStable(done.docs, buf, body, kept, mode);
    forall x | x in kept && Scan(body, x).Some?
      ensures Tracked(Scan(body, x).value.0, body, kept) && Backward(Scan(body, x).value.0, x)
    {
      KeptTarget(buf, |buf|, marks, kept, done, strings, classes, mode, x);
      assert buf[..|buf|] == buf;
    }
  }

  /** The edges of a merged document: a REFP or ALIAS that named the tag at x names, in the finished body,
      the tag that x became, which carries the track flag; with deduplication it may instead name an
      equal string. */
  lemma EdgesKept(body: seq<byte>, docs: seq<Doc>, kept: set<nat>, mode: Mode, w: nat, k: nat, i: nat, x: nat)
    requires Laid(body, docs, kept, mode, w) && !mode.Loose? && k < |docs| && i in docs[k].m && i < docs[k].end
    requires Scan(docs[k].part.inp, i).Some? && Edge(Scan(docs[k].part.inp, i).value.0, x)
    ensures var d := docs[k];
            && x in d.img && Scan(body, d.m[i]).Some?
            && EdgeTo(Scan(d.part.inp, i).value.0, d.img[x]) == Scan(body, d.m[i]).value.0
            && d.img[x] < |body| && body[d.img[x]] >= HIGH
            && (|| (x in d.m && d.img[x] == d.m[x])
                || (TextAt(d.part.inp, x) && TextAt(body, d.img[x]) && Scan(d.part.inp, x).value.0 == Scan(body, d.img[x]).value.0))
            && (mode.Verbatim? && x in d.m ==> d.img[x] == d.m[x])
  {
    hide Scan, Path, DocsOk, Exact;
    assert Scan(body, 1).Some?;
    var d := docs[k];
    DocAt(body, docs, kept, mode, w, k);
    EdgeMapped(d.part.inp, d.end, body, kept, d.m, d.img, i, x);
    if mode.Verbatim? && x in d.m {
      ExactTarget(d.m, d.img, x);
    }
  }

  predicate Edge(t: Token, x: nat) {
    (t.Refer? || t.Alias?) && t.target == x
  }

  /** The same edge, to another target. */
  function EdgeTo(t: Token, v: nat): Token {
    match t
    case Refer(_) => Refer(v)
    case Alias(_) => Alias(v)
    case _ => t
  }

  lemma ExactTarget(m: map<nat, nat>, img: map<nat, nat>, x: nat)
    requires Exact(m, img) && x in img && x in m
    ensures img[x] == m[x]
  {
    assert ExactAt(m, img, x);
  }

  lemma DocAt(body: seq<byte>, docs: seq<Doc>, kept: set<nat>, mode: Mode, w: nat, k: nat)
    requires Laid(body, docs, kept, mode, w) && k < |docs|
    ensures var d := docs[k];
            && Mapped(d.part.inp, d.end, body, kept, d.m, d.img) && Flagged(body, kept) && Sound(d.part.inp)
            && d.part.at in d.m && d.m[d.part.at] == Start(docs, k) && Start(docs, k + 1) == d.m[d.end]
            && (mode.Verbatim? ==> Exact(d.m, d.img)) && (!mode.Loose? ==> FormsKept(d.part.inp, body, d.img))
  {
    hide Scan, Path, Local, Exact, Flagged, Sound, FormsKept;
    assert DocOk(docs, k, body, kept, mode);
  }

  lemma EdgeMapped(inp: seq<byte>, upto: nat, out: seq<byte>, marks: set<nat>, m: map<nat, nat>, img: map<nat, nat>,
                   i: nat, x: nat)
    requires Mapped(inp, upto, out, marks, m, img) && FormsKept(inp, out, img) && Flagged(out, marks) && i in m && i < upto
    requires Scan(inp, i).Some? && Edge(Scan(inp, i).value.0, x)
    ensures x in img && Scan(out, m[i]).Some? && Scan(out, m[i]).value.0 == EdgeTo(Scan(inp, i).value.0, img[x])
    ensures img[x] < |out| && out[img[x]] >= HIGH
    ensures || (x in m && img[x] == m[x])
            || (TextAt(inp, x) && TextAt(out, img[x]) && Scan(inp, x).value.0 == Scan(out, img[x]).value.0)
  {
    hide Scan, Path;
    assert Local(inp, i, out, marks, m, img);
    assert ImageOf(inp, x, out, marks, m, img[x]);
    assert TextAt(inp, x) ==> FormKept(inp, out, img, x);
    assert Tracked(Scan(out, m[i]).value.0, out, marks);
  }

  // ----- one document -----

  /** Each whole document occupies the body from its start to the next. */
  lemma DocSpan(body: seq<byte>, docs: seq<Doc>, kept: set<nat>, mode: Mode, w: nat, k: nat)
    requires Laid(body, docs, kept, mode, w) && k < |docs| && Whole(docs[k])
    ensures Parse(body, Start(docs, k), Items(docs[k].part.n)) == Some(Start(docs, k + 1))
  {
    hide Scan, Path, Local, Laid, Sound, Spelled, Parse;
    DocAt(body, docs, kept, mode, w, k);
    var d := docs[k];
    hide Mapped;
    LockStep(d.part.inp, d.end, body, kept, d.m, d.img, d.part.at, Items(d.part.n));
  }

  /** Its items are found one after the other, and their images in the body likewise. */
  lemma DocChain(body: seq<byte>, docs: seq<Doc>, kept: set<nat>, mode: Mode, w: nat, k: nat)
    requires Laid(body, docs, kept, mode, w) && k < |docs| && Whole(docs[k])
    ensures var d := docs[k];
            && Chain(d.part.inp, d.part.at, Items(d.part.n)).Some? && Chain(body, Start(docs, k), Items(d.part.n)).Some?
            && var ks, ls := Chain(d.part.inp, d.part.at, Items(d.part.n)).value, Chain(body, Start(docs, k), Items(d.part.n)).value;
            |ks| == |ls| && forall j :: 0 <= j < |ks| ==> ks[j] in d.m && ks[j] < d.end && ls[j] == d.m[ks[j]]
  {
    hide Scan, Path, Local, Laid, Sound, Spelled, Parse;
    DocAt(body, docs, kept, mode, w, k);
    var d := docs[k];
    hide Mapped;
    ChainLockStep(d.part.inp, d.end, body, kept, d.m, d.img, d.part.at, Items(d.part.n));
  }

  /** They mean what they meant, where strings kept their forms. */
  lemma DocMeaning(body: seq<byte>, docs: seq<Doc>, kept: set<nat>, mode: Mode, w: nat, k: nat, d: nat)
    requires Laid(body, docs, kept, mode, w) && k < |docs| && Whole(docs[k]) && FormsKept(docs[k].part.inp, body, docs[k].img)
    ensures Chain(body, Start(docs, k), Items(docs[k].part.n)).Some?
    ensures var ls, ts := Chain(body, Start(docs, k), Items(docs[k].part.n)).value, PartTrees(docs[k].part, d);
            |ls| == |ts| && forall j :: 0 <= j < |ls| ==> Meaning(body, ls[j], d) == ts[j] && Clean(ts[j])
  {
    hide Scan, Path, Local, Laid, Sound, Spelled, Parse, Meaning, Clean, Chain, FormsKept, Mapped;
    DocChain(body, docs, kept, mode, w, k);
    DocAt(body, docs, kept, mode, w, k);
    var c := docs[k];
    assert Translated(c.part.inp, c.end, body, kept, c.m, c.img);
    var ks := Chain(c.part.inp, c.part.at, Items(c.part.n)).value;
    forall j | 0 <= j < |ks|
      ensures Meaning(body, c.m[ks[j]], d) == Meaning(c.part.inp, ks[j], d) && Clean(Meaning(c.part.inp, ks[j], d))
    {
      SameMeaning(c.part.inp, c.end, body, kept, c.m, c.img, ks[j], c.m[ks[j]], d);
    }
  }

  // ----- all documents -----

  /** Padding in front of the first document is not seen. */
  lemma {:induction false} PadsUnseen(body: seq<byte>, j: nat)
    requires j <= FIRST <= |body| && forall i :: j <= i < FIRST ==> body[i] == PAD
    ensures Parse(body, j, [Item]) == Parse(body, FIRST, [Item])
    ensures Resolve(body, j) == Resolve(body, FIRST)
    decreases FIRST - j
  {
    if j < FIRST {
      assert Scan(body, j) == Some((Pad, j + 1));
      ParseItem(body, j);
      PadsUnseen(body, j + 1);
    }
  }

  lemma ItemsJoin(a: nat, b: nat)
    ensures Items(a + b) == Items(a) + Items(b)
  {
  }

  lemma {:induction false} ChainJoin(b: seq<byte>, p: nat, xs: seq<Want>, ys: seq<Want>)
    requires Parse(b, p, xs).Some? && Chain(b, p, xs).Some?
    ensures Chain(b, p, xs + ys) == Joined(Chain(b, p, xs).value, Chain(b, Parse(b, p, xs).value, ys))
    decreases |xs|
  {
    hide Scan, Parse, Chain, Joined;
    if xs == [] {
      assert xs + ys == ys;
      NoneLeft(b, p);
      JoinedEmpty(Chain(b, p, ys));
    } else {
      assert xs == [xs[0]] + xs[1..];
      ParseSplit(b, p, [xs[0]], xs[1..]);
      var e := Parse(b, p, [xs[0]]).value;
      ChainStep(b, p, e, xs[0], xs[1..]);
      assert xs + ys == [xs[0]] + (xs[1..] + ys);
      ChainStep(b, p, e, xs[0], xs[1..] + ys);
      ChainJoin(b, e, xs[1..], ys);
      JoinedMore(p, Chain(b, e, xs[1..]).value, Chain(b, Parse(b, p, xs).value, ys));
    }
  }

  lemma NoneLeft(b: seq<byte>, p: nat)
    ensures Parse(b, p, []) == Some(p) && Chain(b, p, []) == Some([])
  {
  }

  function Joined(ks: seq<nat>, more: Option<seq<nat>>): Option<seq<nat>> {
    match more
    case None => None
    case Some(ls) => Some(ks + ls)
  }

  lemma JoinedEmpty(more: Option<seq<nat>>)
    ensures Joined([], more) == more
  {
    assert more.Some? ==> [] + more.value == more.value;
  }

  lemma JoinedMore(p: nat, ks: seq<nat>, more: Option<seq<nat>>)
    ensures Joined([p] + ks, more) == (match Joined(ks, more) case None => None case Some(ls) => Some([p] + ls))
  {
    assert more.Some? ==> [p] + ks + more.value == [p] + (ks + more.value);
  }

  /** The first k documents, one after the other from FIRST on: where their items are. */
  ghost predicate Laying(body: seq<byte>, docs: seq<Doc>, k: nat, ks: seq<nat>)
    requires k <= |docs|
  {
    && Parse(body, FIRST, Items(Total(docs, k))) == Some(Start(docs, k))
    && Chain(body, FIRST, Items(Total(docs, k))) == Some(ks)
  }

  lemma LayingNext(body: seq<byte>, docs: seq<Doc>, kept: set<nat>, mode: Mode, w: nat, k: nat, ks: seq<nat>)
    requires Laid(body, docs, kept, mode, w) && k < |docs| && Whole(docs[k]) && Laying(body, docs, k, ks)
    ensures Chain(body, Start(docs, k), Items(docs[k].part.n)).Some?
    ensures Laying(body, docs, k + 1, ks + Chain(body, Start(docs, k), Items(docs[k].part.n)).value)
  {
    hide Scan, Laid, Chain, Parse, Whole;
    DocSpan(body, docs, kept, mode, w, k);
    DocChain(body, docs, kept, mode, w, k);
    var t, n := Total(docs, k), docs[k].part.n;
    ItemsJoin(t, n);
    ParseSplit(body, FIRST, Items(t), Items(n));
    ChainJoin(body, FIRST, Items(t), Items(n));
  }

  lemma {:induction false} LayingAll(body: seq<byte>, docs: seq<Doc>, kept: set<nat>, mode: Mode, w: nat, k: nat) returns (ks: seq<nat>)
    requires Laid(body, docs, kept, mode, w) && k <= |docs| && AllWhole(docs)
    ensures Laying(body, docs, k, ks)
    ensures AllKept(docs, body) ==> forall d: nat :: Shown(body, docs, k, ks, d)
    ensures forall i :: 0 <= i < k ==> Placed(body, docs, i, ks)
    decreases k
  {
    hide Scan, Laid, Chain, Parse, Laying, Whole, Meaning, Clean, FormsKept, Shown, Placed;
    if k == 0 {
      LayingNone(body, docs);
      ks := [];
    } else {
      var ks0 := LayingAll(body, docs, kept, mode, w, k - 1);
      LayingNext(body, docs, kept, mode, w, k - 1, ks0);
      ks := ks0 + Chain(body, Start(docs, k - 1), Items(docs[k - 1].part.n)).value;
      LayingSize(body, docs, k - 1, ks0);
      if AllKept(docs, body) {
        forall d: nat
          ensures Shown(body, docs, k, ks, d)
        {
          DocMeaning(body, docs, kept, mode, w, k - 1, d);
          ShownNext(body, docs, k - 1, ks0, d);
        }
      }
      forall i | 0 <= i < k
        ensures Placed(body, docs, i, ks)
      {
        PlacedNext(body, docs, i, k - 1, ks0);
      }
    }
  }

  lemma LayingNone(body: seq<byte>, docs: seq<Doc>)
    ensures Laying(body, docs, 0, []) && forall d: nat :: Shown(body, docs, 0, [], d)
  {
    assert Items(0) == [];
  }

  lemma LayingSize(body: seq<byte>, docs: seq<Doc>, k: nat, ks: seq<nat>)
    requires k <= |docs| && Laying(body, docs, k, ks)
    ensures |ks| == Total(docs, k)
  {
    hide Scan, Parse;
  }

  /** The items found mean what the parts mean. */
  ghost predicate Shown(body: seq<byte>, docs: seq<Doc>, k: nat, ks: seq<nat>, d: nat)
    requires k <= |docs|
  {
    var ts := TreesOf(Inputs(docs), k, d);
    |ts| == |ks| && forall j :: 0 <= j < |ks| ==> Meaning(body, ks[j], d) == ts[j] && Clean(ts[j])
  }

  lemma ShownNext(body: seq<byte>, docs: seq<Doc>, k: nat, ks: seq<nat>, d: nat)
    requires k < |docs| && Shown(body, docs, k, ks, d) && Chain(body, Start(docs, k), Items(docs[k].part.n)).Some?
    requires var ls, ts := Chain(body, Start(docs, k), Items(docs[k].part.n)).value, PartTrees(docs[k].part, d);
             |ls| == |ts| && forall j :: 0 <= j < |ls| ==> Meaning(body, ls[j], d) == ts[j] && Clean(ts[j])
    ensures Shown(body, docs, k + 1, ks + Chain(body, Start(docs, k), Items(docs[k].part.n)).value, d)
  {
    hide Scan, Chain, Meaning, Clean, PartTrees, Start;
  }

  /** The items of the i-th document are where they belong among all. */
  ghost predicate Placed(body: seq<byte>, docs: seq<Doc>, i: nat, ks: seq<nat>)
    requires i < |docs|
  {
    && Chain(body, Start(docs, i), Items(docs[i].part.n)).Some?
    && var ls := Chain(body, Start(docs, i), Items(docs[i].part.n)).value;
    && Total(docs, i) + |ls| <= |ks| && ks[Total(docs, i)..Total(docs, i) + |ls|] == ls
  }

  lemma PlacedNext(body: seq<byte>, docs: seq<Doc>, i: nat, k: nat, ks: seq<nat>)
    requires i <= k < |docs| && (i < k ==> Placed(body, docs, i, ks)) && |ks| == Total(docs, k)
    requires Chain(body, Start(docs, k), Items(docs[k].part.n)).Some?
    ensures Placed(body, docs, i, ks + Chain(body, Start(docs, k), Items(docs[k].part.n)).value)
  {
    hide Chain, Start;
    var ls := Chain(body, Start(docs, k), Items(docs[k].part.n)).value;
    if i < k {
      var a := Total(docs, i);
      var n := |Chain(body, Start(docs, i), Items(docs[i].part.n)).value|;
      assert (ks + ls)[a..a + n] == ks[a..a + n];
    } else {
      assert (ks + ls)[|ks|..|ks| + |ls|] == ls;
    }
  }

  // ----- the whole body -----

  /** The body is one well-formed item, and means the array of what the parts mean. */
  ghost predicate Right(body: seq<byte>, parts: seq<Piece>, total: nat) {
    && (total > 0 ==> Parse(body, 1, [Item]) == Some(|body|))
    && forall d: nat :: Meaning(body, 1, d + 2) == ArrayOf(AllTrees(parts, d))
  }

  /** The items begin behind the count. */
  lemma BehindCount(body: seq<byte>, docs: seq<Doc>, kept: set<nat>, mode: Mode, w: nat)
    requires Laid(body, docs, kept, mode, w)
    ensures Parse(body, 1, [Item]) == Parse(body, COUNT_AT + w, Items(Total(docs, |docs|)))
    ensures Resolve(body, COUNT_AT + w) == Resolve(body, FIRST)
    ensures Parse(body, COUNT_AT + w, [Item]) == Parse(body, FIRST, [Item])
  {
    hide Scan, DocsOk, Flagged, Total, Start, Parse, Resolve, Items;
    var n := Total(docs, |docs|);
    PadsUnseen(body, COUNT_AT + w);
    ParseItem(body, 1);
    ParseItem(body, 2);
    assert Wants(Open(REFN, 0)) == [Item] && Wants(Open(ARRAY, n)) == Items(n);
  }

  /** The padding there is not seen. */
  lemma BehindPads(body: seq<byte>, docs: seq<Doc>, kept: set<nat>, mode: Mode, w: nat)
    requires Laid(body, docs, kept, mode, w) && Total(docs, |docs|) > 0
    ensures var n := Total(docs, |docs|);
            && Parse(body, 1, [Item]) == Parse(body, FIRST, Items(n))
            && Parse(body, COUNT_AT + w, Items(n)) == Parse(body, FIRST, Items(n))
            && (Parse(body, FIRST, Items(n)).Some? && Chain(body, FIRST, Items(n)).Some? ==>
                Chain(body, COUNT_AT + w, Items(n)) == Some([COUNT_AT + w] + Chain(body, FIRST, Items(n)).value[1..]))
  {
    hide Scan, Parse, Chain, Laid, Wants, Resolve;
    var n := Total(docs, |docs|);
    BehindCount(body, docs, kept, mode, w);
    assert Items(n) == [Item] + Items(n - 1);
    ParseSplit(body, COUNT_AT + w, [Item], Items(n - 1));
    ParseSplit(body, FIRST, [Item], Items(n - 1));
    if Parse(body, FIRST, [Item]).Some? {
      ChainStep(body, COUNT_AT + w, Parse(body, FIRST, [Item]).value, Item, Items(n - 1));
      ChainStep(body, FIRST, Parse(body, FIRST, [Item]).value, Item, Items(n - 1));
    }
  }

  lemma NoItems(b: seq<byte>, p: nat)
    ensures Parse(b, p, Items(0)) == Some(p) && Chain(b, p, Items(0)) == Some([])
  {
    assert Items(0) == [];
  }

  /** Where the elements of the array are, and that they mean what the items found from FIRST on mean. */
  lemma Found(body: seq<byte>, docs: seq<Doc>, kept: set<nat>, mode: Mode, w: nat, ks: seq<nat>) returns (ls: seq<nat>)
    requires Laid(body, docs, kept, mode, w) && Laying(body, docs, |docs|, ks)
    ensures |ls| == |ks| && Chain(body, COUNT_AT + w, Items(Total(docs, |docs|))) == Some(ls)
    ensures Parse(body, COUNT_AT + w, Items(Total(docs, |docs|))).Some?
    ensures forall j, d :: 0 <= j < |ls| ==> Meaning(body, ls[j], d) == Meaning(body, ks[j], d)
    ensures Total(docs, |docs|) > 0 ==> Parse(body, 1, [Item]) == Some(|body|)
  {
    hide Scan, DocsOk, Flagged, Total, Start, Parse, Chain, Meaning, Resolve;
    var n := Total(docs, |docs|);
    BehindCount(body, docs, kept, mode, w);
    LayingSize(body, docs, |docs|, ks);
    if n == 0 {
      NoItems(body, COUNT_AT + w);
      ls := [];
    } else {
      BehindPads(body, docs, kept, mode, w);
      assert Items(n) == [Item] + Items(n - 1);
      ParseSplit(body, FIRST, [Item], Items(n - 1));
      ChainStep(body, FIRST, Parse(body, FIRST, [Item]).value, Item, Items(n - 1));
      ls := [COUNT_AT + w] + ks[1..];
      forall d: nat
        ensures Meaning(body, ls[0], d) == Meaning(body, ks[0], d)
      {
        SameResolve(body, COUNT_AT + w, FIRST, d);
      }
    }
  }

  lemma LaidHeads(body: seq<byte>, docs: seq<Doc>, kept: set<nat>, mode: Mode, w: nat, ls: seq<nat>)
    requires Laid(body, docs, kept, mode, w)
    requires Chain(body, COUNT_AT + w, Items(Total(docs, |docs|))) == Some(ls)
    requires Parse(body, COUNT_AT + w, Items(Total(docs, |docs|))).Some?
    ensures Resolve(body, 1) == Some(1) && Head(body, 1) == Some(Node(Open(REFN, 0), [2]))
    ensures Resolve(body, 2) == Some(2) && Head(body, 2) == Some(Node(Open(ARRAY, Total(docs, |docs|)), ls))
  {
    hide Scan, DocsOk, Flagged, Total, Start;
    var n := Total(docs, |docs|);
    ScanPad(body, 1);
    ScanPad(body, 2);
    ParseItem(body, 1);
    ParseItem(body, 2);
    assert Wants(Open(REFN, 0)) == [Item] && Wants(Open(ARRAY, n)) == Items(n);
    assert Parse(body, 2, [Item]).Some?;
    assert [Item][1..] == [];
    assert Chain(body, Parse(body, 2, [Item]).value, []) == Some([]);
    assert Chain(body, 2, [Item]) == Some([2] + []);
    assert [2] + [] == [2];
  }

  lemma BodyTree(body: seq<byte>, docs: seq<Doc>, kept: set<nat>, mode: Mode, w: nat, ls: seq<nat>, d: nat)
    requires Laid(body, docs, kept, mode, w)
    requires Chain(body, COUNT_AT + w, Items(Total(docs, |docs|))) == Some(ls)
    requires Parse(body, COUNT_AT + w, Items(Total(docs, |docs|))).Some?
    ensures Meaning(body, 1, d + 2) == ArrayOf(Meant(body, ls, d))
  {
    hide Scan, DocsOk, Chain, Parse, Meaning, Resolve, Head;
    LaidHeads(body, docs, kept, mode, w, ls);
    hide Laid;
    MeaningStep(body, 1, d + 2);
    MeaningStep(body, 2, d + 1);
    assert Meaning(body, 2, d + 1).kids == Meant(body, ls, d);
    assert Meaning(body, 1, d + 2).kids == [Meaning(body, 2, d + 1)];
  }

  ghost function Meant(b: seq<byte>, ks: seq<nat>, d: nat): (ts: seq<Tree>)
    ensures |ts| == |ks| && forall j :: 0 <= j < |ks| ==> ts[j] == Meaning(b, ks[j], d)
  {
    seq(|ks|, j requires 0 <= j < |ks| => Meaning(b, ks[j], d))
  }

  /** The finished body means the array of what the documents mean, if all are whole and all strings kept
      their forms. */
  lemma LaidMeaning(body: seq<byte>, docs: seq<Doc>, kept: set<nat>, mode: Mode, w: nat)
    requires Laid(body, docs, kept, mode, w) && AllWhole(docs) && AllKept(docs, body)
    ensures Right(body, Inputs(docs), Total(docs, |docs|))
    ensures forall d: nat, j :: 0 <= j < |AllTrees(Inputs(docs), d)| ==> Clean(AllTrees(Inputs(docs), d)[j])
  {
    hide Scan, Chain, Parse, Meaning, Clean, Resolve, Head, Laid, Whole, FormsKept, Laying, TreesOf;
    var ks := LayingAll(body, docs, kept, mode, w, |docs|);
    var ls := Found(body, docs, kept, mode, w, ks);
    forall d: nat
      ensures Meaning(body, 1, d + 2) == ArrayOf(AllTrees(Inputs(docs), d))
      ensures forall j :: 0 <= j < |AllTrees(Inputs(docs), d)| ==> Clean(AllTrees(Inputs(docs), d)[j])
    {
      assert Shown(body, docs, |docs|, ks, d);
      BodyTree(body, docs, kept, mode, w, ls, d);
      assert Meant(body, ls, d) == AllTrees(Inputs(docs), d);
    }
  }

  /** A string in another form shows in what one of the items means. */
  lemma DocChanged(body: seq<byte>, docs: seq<Doc>, kept: set<nat>, mode: Mode, w: nat, i: nat) returns (j: nat, d: nat)
    requires Laid(body, docs, kept, mode, w) && i < |docs| && Whole(docs[i]) && !FormsKept(docs[i].part.inp, body, docs[i].img)
    ensures Chain(body, Start(docs, i), Items(docs[i].part.n)).Some?
    ensures j < docs[i].part.n && |PartTrees(docs[i].part, d)| == docs[i].part.n
    ensures Meaning(body, Chain(body, Start(docs, i), Items(docs[i].part.n)).value[j], d) != PartTrees(docs[i].part, d)[j]
  {
    hide Scan, Chain, Parse, Meaning, Resolve, Head, Laid, Mapped, FormKept, Path, Sound, Spelled;
    var c := docs[i];
    var q :| q in c.img && TextAt(c.part.inp, q) && !FormKept(c.part.inp, body, c.img, q);
    DocAt(body, docs, kept, mode, w, i);
    DocChain(body, docs, kept, mode, w, i);
    DocCovers(body, docs, kept, mode, w, i);
    j := ChainFind(c.part.inp, c.part.at, Items(c.part.n), q);
    var x := Chain(c.part.inp, c.part.at, Items(c.part.n)).value[j];
    d := FormShows(c.part.inp, c.end, body, kept, c.m, c.img, x, q);
  }

  /** And in what the body means. */
  lemma LaidChanged(body: seq<byte>, docs: seq<Doc>, kept: set<nat>, mode: Mode, w: nat)
    requires Laid(body, docs, kept, mode, w) && AllWhole(docs) && !AllKept(docs, body)
    ensures !Right(body, Inputs(docs), Total(docs, |docs|))
  {
    hide Scan, Chain, Parse, Meaning, Resolve, Head, Laid, Laying, TreesOf, FormsKept, Whole, PartTrees, Start, Total;
    var i :| 0 <= i < |docs| && !FormsKept(docs[i].part.inp, body, docs[i].img);
    var ks := LayingAll(body, docs, kept, mode, w, |docs|);
    var ls := Found(body, docs, kept, mode, w, ks);
    assert Placed(body, docs, i, ks);
    var j, d := DocChanged(body, docs, kept, mode, w, i);
    TreeAt(docs, i, d);
    BodyTree(body, docs, kept, mode, w, ls, d);
    var at, n := Total(docs, i) + j, docs[i].part.n;
    PlacedAt(body, docs, i, ks, j);
    assert Meant(body, ls, d)[at] != AllTrees(Inputs(docs), d)[at];
  }

  lemma PlacedAt(body: seq<byte>, docs: seq<Doc>, i: nat, ks: seq<nat>, j: nat)
    requires i < |docs| && Placed(body, docs, i, ks) && j < docs[i].part.n
    ensures Total(docs, i) + j < |ks| && ks[Total(docs, i) + j] == Chain(body, Start(docs, i), Items(docs[i].part.n)).value[j]
  {
    hide Chain, Start;
    var ls := Chain(body, Start(docs, i), Items(docs[i].part.n)).value;
    assert ks[Total(docs, i)..Total(docs, i) + |ls|][j] == ks[Total(docs, i) + j];
  }

  lemma DocCovers(body: seq<byte>, docs: seq<Doc>, kept: set<nat>, mode: Mode, w: nat, k: nat)
    requires Laid(body, docs, kept, mode, w) && k < |docs|
    ensures var d := docs[k]; forall x :: x in d.img ==> d.part.at <= x < d.end && Path(d.part.inp, 1, x)
  {
    hide Scan, Path, Local, Sound, FormsKept, Flagged;
    assert DocOk(docs, k, body, kept, mode);
  }

  /** Whole parts have as many trees as items. */
  lemma PartSize(d: Doc, n: nat)
    requires Whole(d)
    ensures |PartTrees(d.part, n)| == d.part.n
  {
    hide Scan, Parse, Spelled;
    ChainSome(d.part.inp, d.part.at, Items(d.part.n));
  }

  lemma {:induction false} LayingTrees(docs: seq<Doc>, k: nat, d: nat)
    requires k <= |docs| && AllWhole(docs)
    ensures |TreesOf(Inputs(docs), k, d)| == Total(docs, k)
    decreases k
  {
    hide Whole, PartTrees;
    if k > 0 {
      LayingTrees(docs, k - 1, d);
      PartSize(docs[k - 1], d);
    }
  }

  lemma {:induction false} TreesPrefix(docs: seq<Doc>, i: nat, k: nat, d: nat)
    requires i < k <= |docs| && AllWhole(docs)
    ensures Total(docs, i) + docs[i].part.n <= Total(docs, k) == |TreesOf(Inputs(docs), k, d)|
    ensures TreesOf(Inputs(docs), k, d)[Total(docs, i)..Total(docs, i) + docs[i].part.n] == PartTrees(docs[i].part, d)
    decreases k
  {
    hide Whole, PartTrees;
    LayingTrees(docs, k - 1, d);
    PartSize(docs[k - 1], d);
    if i < k - 1 {
      TreesPrefix(docs, i, k - 1, d);
    }
  }

  lemma TreeAt(docs: seq<Doc>, i: nat, d: nat)
    requires i < |docs| && AllWhole(docs)
    ensures |PartTrees(docs[i].part, d)| == docs[i].part.n
    ensures Total(docs, i) + docs[i].part.n <= |AllTrees(Inputs(docs), d)|
    ensures forall j :: 0 <= j < docs[i].part.n ==> AllTrees(Inputs(docs), d)[Total(docs, i) + j] == PartTrees(docs[i].part, d)[j]
  {
    hide Whole, PartTrees, TreesOf;
    TreesPrefix(docs, i, |docs|, d);
    PartSize(docs[i], d);
    var ts := AllTrees(Inputs(docs), d);
    forall j | 0 <= j < docs[i].part.n
      ensures ts[Total(docs, i) + j] == PartTrees(docs[i].part, d)[j]
    {
      assert ts[Total(docs, i)..Total(docs, i) + docs[i].part.n][j] == ts[Total(docs, i) + j];
    }
  }

  // ----- counting -----

  /** Places of the part that are left open, less items too many, in what it became. */
  ghost function Gap(d: Doc): int {
    Balance(d.part.inp, d.part.at, d.end) + d.part.n - Borrowed(d.part.inp, d.part.at, d.end)
  }

  ghost function Gaps(docs: seq<Doc>, k: nat): int
    requires k <= |docs|
  {
    if k == 0 then 0 else Gaps(docs, k - 1) + Gap(docs[k - 1])
  }

  lemma {:induction false} BodyBalance(body: seq<byte>, docs: seq<Doc>, kept: set<nat>, mode: Mode, w: nat, k: nat)
    requires Laid(body, docs, kept, mode, w) && k <= |docs|
    ensures FIRST <= Start(docs, k) && Path(body, FIRST, Start(docs, k))
    ensures Balance(body, FIRST, Start(docs, k)) == Gaps(docs, k) - Total(docs, k)
    decreases k
  {
    hide Scan, Laid, Path, Balance, Borrowed, Mapped, Sound, FormsKept;
    if k == 0 {
      StartBalance(body, docs);
    } else {
      BodyBalance(body, docs, kept, mode, w, k - 1);
      DocAt(body, docs, kept, mode, w, k - 1);
      var c := docs[k - 1];
      MappedBalance(c.part.inp, c.end, body, kept, c.m, c.img, c.part.at);
      MappedPath(c.part.inp, c.end, body, kept, c.m, c.img, c.part.at);
      BalanceJoin(body, FIRST, Start(docs, k - 1), Start(docs, k));
      PathTrans(body, FIRST, Start(docs, k - 1), Start(docs, k));
    }
  }

  lemma StartBalance(body: seq<byte>, docs: seq<Doc>)
    ensures Path(body, FIRST, Start(docs, 0)) && Balance(body, FIRST, Start(docs, 0)) == 0 && Start(docs, 0) == FIRST
  {
  }

  /** A well-formed body has no gaps. */
  lemma LaidCounts(body: seq<byte>, docs: seq<Doc>, kept: set<nat>, mode: Mode, w: nat)
    requires Laid(body, docs, kept, mode, w) && Total(docs, |docs|) > 0 && Parse(body, 1, [Item]) == Some(|body|)
    ensures Gaps(docs, |docs|) == 0
  {
    hide Scan, Parse, Path, Balance, DocsOk, Flagged;
    BehindPads(body, docs, kept, mode, w);
    BodyBalance(body, docs, kept, mode, w, |docs|);
    ParseBalance(body, FIRST, Items(Total(docs, |docs|)));
  }

  // ----- reading back -----

  /** The part is filled by its tags, though its keys may not be strings. */
  ghost predicate Filled(d: Doc) {
    && Spelled(d.part.inp, d.end)
    && Walk(d.part.inp, d.part.at, Items(d.part.n)) == Some((d.end, []))
  }

  /** When the first k documents can be read, all of them filled, each can be read in the source. */
  lemma {:induction false} LaidParses(body: seq<byte>, docs: seq<Doc>, kept: set<nat>, mode: Mode, w: nat, k: nat)
    requires Laid(body, docs, kept, mode, w) && k <= |docs| && forall i :: 0 <= i < |docs| ==> Filled(docs[i])
    requires Parse(body, FIRST, Items(Total(docs, k))).Some?
    ensures Parse(body, FIRST, Items(Total(docs, k))) == Some(Start(docs, k))
    ensures forall i :: 0 <= i < k ==> Parse(docs[i].part.inp, docs[i].part.at, Items(docs[i].part.n)) == Some(docs[i].end)
    decreases k
  {
    hide Scan, Laid, Parse, Mapped, Sound, FormsKept, Filled;
    if k == 0 {
      NoItems(body, FIRST);
    } else {
      var t, n := Total(docs, k - 1), docs[k - 1].part.n;
      ItemsJoin(t, n);
      ParseSplit(body, FIRST, Items(t), Items(n));
      LaidParses(body, docs, kept, mode, w, k - 1);
      DocAt(body, docs, kept, mode, w, k - 1);
      FilledStep(body, docs[k - 1], kept);
    }
  }

  lemma FilledStep(body: seq<byte>, d: Doc, kept: set<nat>)
    requires Filled(d) && Mapped(d.part.inp, d.end, body, kept, d.m, d.img) && d.part.at in d.m
    requires Parse(body, d.m[d.part.at], Items(d.part.n)).Some?
    ensures d.end in d.m && Parse(body, d.m[d.part.at], Items(d.part.n)) == Some(d.m[d.end])
    ensures Parse(d.part.inp, d.part.at, Items(d.part.n)) == Some(d.end)
  {
    hide Scan, Parse, Walk, Spelled, Local, Path;
    WalkStep(d.part.inp, d.end, body, kept, d.m, d.img, d.part.at, Items(d.part.n), d.end);
  }

  /** The same, from the state of the merger. */
  lemma FinishedMeaning(buf: seq<byte>, marks: set<nat>, kept: set<nat>, done: Ledger,
                        strings: seq<Entry>, classes: seq<Entry>, mode: Mode)
    requires Core(buf, |buf|, marks, kept, done, strings, classes, mode) && Total(done.docs, |done.docs|) <= MAX_COUNT
    requires AllWhole(done.docs) && AllKept(done.docs, buf)
    ensures var n := Total(done.docs, |done.docs|);
            |Write(n)| <= 5 && Right(Finished(buf, n), Inputs(done.docs), n)
    ensures forall d: nat, j :: 0 <= j < |AllTrees(Inputs(done.docs), d)| ==> Clean(AllTrees(Inputs(done.docs), d)[j])
  {
    var n := Total(done.docs, |done.docs|);
    FinishedLaid(buf, marks, kept, done, strings, classes, mode);
    hide Scan, Core, Parse, Meaning, Clean, Laid, Write, Finished, Whole, FormsKept, Right;
    FinishedKept(buf, marks, kept, done, strings, classes, mode);
    LaidMeaning(Finished(buf, n), done.docs, kept, mode, |Write(n)|);
  }

  /** Writing the count changes no form. */
  lemma FinishedKept(buf: seq<byte>, marks: set<nat>, kept: set<nat>, done: Ledger,
                     strings: seq<Entry>, classes: seq<Entry>, mode: Mode)
    requires Core(buf, |buf|, marks, kept, done, strings, classes, mode) && Total(done.docs, |done.docs|) <= MAX_COUNT
    ensures |Write(Total(done.docs, |done.docs|))| <= 5
    ensures AllKept(done.docs, buf) <==> AllKept(done.docs, Finished(buf, Total(done.docs, |done.docs|)))
  {
    FinishedLaid(buf, marks, kept, done, strings, classes, mode);
    hide Scan, Parse, Write, Finished, Laid, Flagged, Total;
    var body := Finished(buf, Total(done.docs, |done.docs|));
    var docs := done.docs;
    forall k | 0 <= k < |docs|
      ensures FormsKept(docs[k].part.inp, buf, docs[k].img) <==> FormsKept(docs[k].part.inp, body, docs[k].img)
    {
      var d := docs[k];
      assert DocOk(docs, k, buf, kept, mode);
      FormsSame(d.part.inp, d.end, buf, body, kept, d.m, d.img);
    }
  }

  lemma FormsSame(inp: seq<byte>, upto: nat, buf: seq<byte>, body: seq<byte>, kept: set<nat>, m: map<nat, nat>, img: map<nat, nat>)
    requires Mapped(inp, upto, buf, kept, m, img) && SameTags(buf, body, kept)
    ensures FormsKept(inp, buf, img) <==> FormsKept(inp, body, img)
  {
    hide Scan, Path, Local;
    forall x | x in img && TextAt(inp, x)
      ensures FormKept(inp, buf, img, x) <==> FormKept(inp, body, img, x)
    {
      assert ImageOf(inp, x, buf, kept, m, img[x]);
    }
  }
}
