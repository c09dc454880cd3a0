/** The forms of strings in the Go merger: each table keeps the form in which a string was first met, and that
    is the form all later ones take.  Strings keep their forms exactly when all those looked up agree. */
module GoForms {
  import opened Varint
  import opened Wire
  import opened Mapping
  import opened MergerState
  import opened MergerResult
  import opened Faults
  import opened GoMergeState

  /** Two tables: that of strings and that of class names. */
  datatype Origins = Origins(strings: map<seq<byte>, Origin>, classes: map<seq<byte>, Origin>)

  function TokenOf(o: Origin): Token
    requires TextAt(o.0, o.1)
  {
    Scan(o.0, o.1).value.0
  }

  ghost predicate FormOf(from: map<seq<byte>, Origin>, t: Token, u: Token)
    requires t.Text?
  {
    t.content in from && OriginOk(from[t.content], t.content) && u == TokenOf(from[t.content])
  }

  /** The image at v of the string at x is in the form its table says, if it was looked up; else in its own. */
  ghost predicate LooksAt(inp: seq<byte>, flat: bool, all: bool, x: nat, buf: seq<byte>, v: nat, from: Origins)
    requires TextAt(inp, x)
  {
    && Scan(buf, v).Some?
    && var t, u := Scan(inp, x).value.0, Scan(buf, v).value.0;
    if NameAt(inp, x) then FormOf(from.classes, t, u)
    else if Looked(inp, flat, all, x) then FormOf(from.strings, t, u)
    else u == t
  }

  ghost predicate Looks(inp: seq<byte>, flat: bool, all: bool, buf: seq<byte>, img: map<nat, nat>, from: Origins) {
    forall x :: x in img && TextAt(inp, x) ==> LooksAt(inp, flat, all, x, buf, img[x], from)
  }

  ghost predicate More(from: map<seq<byte>, Origin>, from': map<seq<byte>, Origin>) {
    forall s :: s in from ==> s in from' && from'[s] == from[s]
  }

  ghost predicate MoreOrigins(from: Origins, from': Origins) {
    More(from.strings, from'.strings) && More(from.classes, from'.classes)
  }

  lemma LooksKept(inp: seq<byte>, flat: bool, all: bool, was: seq<byte>, buf: seq<byte>, marks: set<nat>, img: map<nat, nat>,
                  from: Origins, from': Origins)
    requires Looks(inp, flat, all, was, img, from) && SameTags(was, buf, marks) && MoreOrigins(from, from')
    requires forall x :: x in img ==> img[x] in marks
    ensures Looks(inp, flat, all, buf, img, from')
  {
    hide Scan, Looked, NameAt, TokenOf, OriginOk;
    forall x | x in img && TextAt(inp, x)
      ensures LooksAt(inp, flat, all, x, buf, img[x], from')
    {
      assert LooksAt(inp, flat, all, x, was, img[x], from);
    }
  }

  /** The string at x has been met, and v is where its image stands. */
  lemma LooksMore(inp: seq<byte>, flat: bool, all: bool, buf: seq<byte>, img: map<nat, nat>, x: nat, v: nat, from: Origins)
    requires Looks(inp, flat, all, buf, img, from) && (TextAt(inp, x) ==> LooksAt(inp, flat, all, x, buf, v, from))
    ensures Looks(inp, flat, all, buf, img[x := v], from)
  {
    hide LooksAt, TextAt;
    var img' := img[x := v];
    forall y | y in img' && TextAt(inp, y)
      ensures LooksAt(inp, flat, all, y, buf, img'[y], from)
    {
    }
  }

  /** Every origin lies in one of the documents, where it was looked up. */
  ghost predicate OriginsIn(from: Origins, docs: set<seq<byte>>, flat: bool, all: bool) {
    && (forall s :: s in from.strings ==> StringFrom(from.strings[s], docs, flat, all))
    && (forall s :: s in from.classes ==> ClassFrom(from.classes[s], docs, flat))
  }

  ghost predicate StringFrom(o: Origin, docs: set<seq<byte>>, flat: bool, all: bool) {
    o.0 in docs && Looked(o.0, flat, all, o.1)
  }

  ghost predicate ClassFrom(o: Origin, docs: set<seq<byte>>, flat: bool) {
    o.0 in docs && NameMet(o.0, flat, o.1)
  }

  /** A document as the Go merger leaves it: its part is what the header says, read as far as it goes. */
  ghost predicate GoDoc(d: Doc, flat: bool) {
    && Takeable(d.part.inp, flat) && Header(d.part.inp, flat) == Some((d.part.at, d.part.n))
    && Walk(d.part.inp, d.part.at, Items(d.part.n)).Some?
    && Walk(d.part.inp, d.part.at, Items(d.part.n)).value.0 == d.end
    && Covered(d.part.inp, d.part.at, d.end, d.img) && forall x :: x in d.img ==> x < d.end
  }

  ghost predicate GoDocs(docs: seq<Doc>, flat: bool) {
    forall k :: 0 <= k < |docs| ==> GoDoc(docs[k], flat)
  }

  /** What is met has an image, and what has an image was met. */
  lemma MetHasImage(d: Doc, flat: bool, x: nat)
    requires GoDoc(d, flat) && TextAt(d.part.inp, x)
    ensures x in d.img <==> Met(d.part.inp, flat, x)
  {
    hide Scan, Path, Walk, Takeable;
  }

  ghost predicate AllLook(docs: seq<Doc>, flat: bool, all: bool, buf: seq<byte>, from: Origins) {
    forall k :: 0 <= k < |docs| ==> Looks(docs[k].part.inp, flat, all, buf, docs[k].img, from)
  }

  function InputSet(docs: seq<Doc>): set<seq<byte>> {
    set k | 0 <= k < |docs| :: docs[k].part.inp
  }

  /** Where all agree, each string has the form of its origin, which is its own. */
  lemma AgreeKept(docs: seq<Doc>, flat: bool, all: bool, buf: seq<byte>, from: Origins, k: nat, x: nat)
    requires GoDocs(docs, flat) && AllLook(docs, flat, all, buf, from) && OriginsIn(from, InputSet(docs), flat, all)
    requires FormsAgree(InputSet(docs), flat, all) && k < |docs| && x in docs[k].img && TextAt(docs[k].part.inp, x)
    ensures FormKept(docs[k].part.inp, buf, docs[k].img, x)
  {
    hide Scan, Path, Met, KeyDue, NameAt, GoDoc;
    var d := docs[k];
    var inp := d.part.inp;
    assert GoDoc(d, flat) && inp in InputSet(docs);
    MetHasImage(d, flat, x);
    assert LooksAt(inp, flat, all, x, buf, d.img[x], from);
    var s := Scan(inp, x).value.0.content;
    if NameAt(inp, x) {
      assert ClassFrom(from.classes[s], InputSet(docs), flat);
      assert NameMet(inp, flat, x);
      assert Alike(inp, x, from.classes[s].0, from.classes[s].1);
    } else if Looked(inp, flat, all, x) {
      assert StringFrom(from.strings[s], InputSet(docs), flat, all);
      assert Alike(inp, x, from.strings[s].0, from.strings[s].1);
    }
  }

  /** Where all keep their forms, a string that is looked up has that of its origin. */
  lemma KeptString(docs: seq<Doc>, flat: bool, all: bool, buf: seq<byte>, from: Origins, c: seq<byte>, p: nat)
    requires GoDocs(docs, flat) && AllLook(docs, flat, all, buf, from) && AllKept(docs, buf)
    requires c in InputSet(docs) && Looked(c, flat, all, p)
    ensures FormOf(from.strings, Scan(c, p).value.0, Scan(c, p).value.0)
  {
    hide Scan, Path, Met, KeyDue, NameAt, GoDoc;
    var k :| 0 <= k < |docs| && docs[k].part.inp == c;
    assert GoDoc(docs[k], flat);
    MetHasImage(docs[k], flat, p);
    assert LooksAt(c, flat, all, p, buf, docs[k].img[p], from);
    assert FormKept(c, buf, docs[k].img, p);
  }

  lemma KeptName(docs: seq<Doc>, flat: bool, all: bool, buf: seq<byte>, from: Origins, c: seq<byte>, p: nat)
    requires GoDocs(docs, flat) && AllLook(docs, flat, all, buf, from) && AllKept(docs, buf)
    requires c in InputSet(docs) && NameMet(c, flat, p)
    ensures FormOf(from.classes, Scan(c, p).value.0, Scan(c, p).value.0)
  {
    hide Scan, Path, Met, KeyDue, NameAt, GoDoc;
    var k :| 0 <= k < |docs| && docs[k].part.inp == c;
    assert GoDoc(docs[k], flat);
    MetHasImage(docs[k], flat, p);
    assert LooksAt(c, flat, all, p, buf, docs[k].img[p], from);
    assert FormKept(c, buf, docs[k].img, p);
  }

  /** Strings keep their forms exactly when those looked up in the same table agree. */
  lemma KeptAgree(docs: seq<Doc>, flat: bool, all: bool, buf: seq<byte>, from: Origins)
    requires GoDocs(docs, flat) && AllLook(docs, flat, all, buf, from) && OriginsIn(from, InputSet(docs), flat, all)
    ensures AllKept(docs, buf) <==> FormsAgree(InputSet(docs), flat, all)
  {
    hide Scan, Met, KeyDue, NameAt, GoDoc, Looked, NameMet, Looks, FormKept, TokenOf, OriginOk;
    var inps := InputSet(docs);
    if FormsAgree(inps, flat, all) {
      forall k, x | 0 <= k < |docs| && x in docs[k].img && TextAt(docs[k].part.inp, x)
        ensures FormKept(docs[k].part.inp, buf, docs[k].img, x)
      {
        AgreeKept(docs, flat, all, buf, from, k, x);
      }
    }
    if AllKept(docs, buf) {
      forall c, d, p, q | c in inps && d in inps && Looked(c, flat, all, p) && Looked(d, flat, all, q)
        ensures TextAt(c, p) && TextAt(d, q) && Alike(c, p, d, q)
      {
        KeptString(docs, flat, all, buf, from, c, p);
        KeptString(docs, flat, all, buf, from, d, q);
        LookedText(c, flat, all, p);
        LookedText(d, flat, all, q);
      }
      forall c, d, p, q | c in inps && d in inps && NameMet(c, flat, p) && NameMet(d, flat, q)
        ensures TextAt(c, p) && TextAt(d, q) && Alike(c, p, d, q)
      {
        KeptName(docs, flat, all, buf, from, c, p);
        KeptName(docs, flat, all, buf, from, d, q);
        MetText(c, flat, p);
        MetText(d, flat, q);
      }
    }
  }

  lemma LookedText(c: seq<byte>, flat: bool, all: bool, p: nat)
    ensures Looked(c, flat, all, p) ==> TextAt(c, p)
  {
  }

  lemma MetText(c: seq<byte>, flat: bool, p: nat)
    ensures NameMet(c, flat, p) ==> TextAt(c, p)
  {
  }

  // ----- what a finished merge means -----

  /** What is asked for of a document. */
  function PieceOf(doc: seq<byte>, flat: bool): Piece {
    match Header(doc, flat)
    case None => Piece(doc, 1, 1)
    case Some((at, n)) => Piece(doc, at, n)
  }

  /** What is asked for of a document that is kept flat: the elements of the array on top, if there is one. */
  lemma FlatMeaning(doc: seq<byte>, d: nat)
    requires 3 <= |doc| && Parse(doc, 1, [Item]).Some?
    ensures var ts := PartTrees(PieceOf(doc, true), d);
            if doc[1] % 128 == 40 && doc[2] % 128 == 43 then
              Meaning(doc, 1, d + 2) == Tree(Open(40, 0), [Tree(Open(43, |ts|), ts)])
            else if 64 <= doc[1] % 128 < 80 then Meaning(doc, 1, d + 1) == Tree(Open(64, doc[1] % 128 - 64), ts)
            else ts == [Meaning(doc, 1, d)]
  {
    HeaderIs(doc, true);
    HeaderParse(doc, true);
    HeaderTags(doc);
    hide Scan, Parse, Meaning, Walk, PartTrees, Path, Read;
    var (at, n) := Header(doc, true).value;
    if doc[1] % 128 == 40 && doc[2] % 128 == 43 {
      NestedTrees(doc, at, n, d);
    } else if 64 <= doc[1] % 128 < 80 {
      ArrayTrees(doc, 1, n, 2, ARRAYREF, d);
    } else {
      assert Items(1) == [Item];
      WholeTrees(doc, d);
    }
  }

  lemma WholeTrees(doc: seq<byte>, d: nat)
    requires Parse(doc, 1, [Item]).Some?
    ensures PartTrees(Piece(doc, 1, 1), d) == [Meaning(doc, 1, d)]
  {
    hide Scan, Parse, Meaning;
    OnlyChild(doc, 1);
    assert Items(1) == [Item];
  }

  /** The elements of an array. */
  lemma ArrayTrees(doc: seq<byte>, p: nat, n: nat, at: nat, tag: int, d: nat)
    requires Parse(doc, at, Items(n)).Some? && tag in {ARRAYREF, ARRAY} && Scan(doc, p) == Some((Open(tag, n), at))
    ensures var ts := PartTrees(Piece(doc, at, n), d); |ts| == n && Meaning(doc, p, d + 1) == Tree(Open(tag, n), ts)
  {
    ChainSome(doc, at, Items(n));
    HeaderWants(n);
    hide Scan, Parse, Meaning, Wants;
    Children(doc, p, Open(tag, n), at, Chain(doc, at, Items(n)).value, d);
  }

  lemma NestedTrees(doc: seq<byte>, at: nat, n: nat, d: nat)
    requires Parse(doc, at, Items(n)).Some? && Scan(doc, 1) == Some((Open(REFN, 0), 2)) && Scan(doc, 2) == Some((Open(ARRAY, n), at))
    ensures var ts := PartTrees(Piece(doc, at, n), d);
            |ts| == n && Meaning(doc, 1, d + 2) == Tree(Open(REFN, 0), [Tree(Open(ARRAY, n), ts)])
  {
    ArrayTrees(doc, 2, n, at, ARRAY, d);
    ParseItem(doc, 2);
    HeaderWants(n);
    hide Scan, Parse, Meaning, Wants, PartTrees;
    OnlyChild(doc, 2);
    Children(doc, 1, Open(REFN, 0), 2, [2], d + 1);
  }

  /** The tree of a tag that further items belong to. */
  lemma Children(doc: seq<byte>, p: nat, t: Token, q: nat, ks: seq<nat>, d: nat)
    requires Scan(doc, p) == Some((t, q)) && t.Open? && Chain(doc, q, Wants(t)) == Some(ks)
    ensures Meaning(doc, p, d + 1) == Tree(t, seq(|ks|, j requires 0 <= j < |ks| => Meaning(doc, ks[j], d)))
  {
    hide Scan, Chain, Meaning, Wants;
    assert Resolve(doc, p) == Some(p) && Head(doc, p) == Some(Node(t, ks));
    MeaningStep(doc, p, d + 1);
    assert Meaning(doc, p, d + 1).kids == seq(|ks|, j requires 0 <= j < |ks| => Meaning(doc, ks[j], d));
  }

  lemma OnlyChild(doc: seq<byte>, p: nat)
    ensures Parse(doc, p, [Item]).Some? ==> Chain(doc, p, [Item]) == Some([p])
  {
    hide Scan;
    if Parse(doc, p, [Item]).Some? {
      var e := Parse(doc, p, [Item]).value;
      ChainStep(doc, p, e, Item, []);
      assert [Item] + [] == [Item] && Chain(doc, e, []) == Some([]) && [p] + [] == [p];
    }
  }

  /** Documents that are one well-formed item each. */
  ghost predicate AllParse(docs: seq<Doc>) {
    forall k :: 0 <= k < |docs| ==> Parse(docs[k].part.inp, 1, [Item]).Some?
  }

  lemma TakeableSpelled(doc: seq<byte>, flat: bool)
    requires Takeable(doc, flat)
    ensures Spelled(doc, |doc|)
  {
    hide Scan, Path, Sound, Walk, Header;
    forall q: nat | Path(doc, 1, q) && Scan(doc, q).Some? && IsObject(Scan(doc, q).value.0)
      ensures TextAt(doc, Scan(doc, q).value.1)
    {
      assert TagTakeable(doc, q);
    }
  }

  /** What was read of a well-formed document is all of it. */
  lemma GoWhole(d: Doc, flat: bool)
    requires GoDoc(d, flat) && d.end <= |d.part.inp|
    ensures Parse(d.part.inp, 1, [Item]) == Parse(d.part.inp, d.part.at, Items(d.part.n))
    ensures Parse(d.part.inp, 1, [Item]).Some? <==> Whole(d)
    ensures Gap(d) >= 0
    ensures Gap(d) == 0 ==> Filled(d)
  {
    var inp, at, n := d.part.inp, d.part.at, d.part.n;
    TakeableSpelled(inp, flat);
    HeaderParse(inp, flat);
    ParseWalk(inp, at, Items(n));
    WalkBalance(inp, at, Items(n));
    hide Scan, Path, Parse, Walk, Balance, Header, TagTakeable;
    SpelledLess(inp, |inp|, d.end);
    HeaderAt(inp, flat);
    SpelledNone(inp, at, d.end);
  }

  lemma SpelledLess(b: seq<byte>, upto: nat, e: nat)
    requires Spelled(b, upto) && e <= upto
    ensures Spelled(b, e)
  {
    hide Scan, Path;
  }

  lemma HeaderAt(doc: seq<byte>, flat: bool)
    ensures Header(doc, flat).Some? ==> 1 <= Header(doc, flat).value.0
  {
  }

  lemma {:induction false} GoGaps(docs: seq<Doc>, flat: bool, k: nat)
    requires k <= |docs| && GoDocs(docs, flat) && forall i :: 0 <= i < |docs| ==> docs[i].end <= |docs[i].part.inp|
    ensures Gaps(docs, k) >= 0
    ensures Gaps(docs, k) == 0 ==> forall i :: 0 <= i < k ==> Filled(docs[i])
    decreases k
  {
    hide GoDoc, Gap, Filled;
    if k > 0 {
      GoGaps(docs, flat, k - 1);
      GoWhole(docs[k - 1], flat);
    }
  }

  lemma DocEnds(buf: seq<byte>, marks: set<nat>, done: Ledger, flat: bool)
    requires Core(buf, |buf|, marks, marks, done, [], [], Loose) && GoDocs(done.docs, flat)
    ensures forall i :: 0 <= i < |done.docs| ==> done.docs[i].end <= |done.docs[i].part.inp|
  {
    hide Scan, Path, Local, Sound, Walk, Header, Covered;
    forall i | 0 <= i < |done.docs|
      ensures done.docs[i].end <= |done.docs[i].part.inp|
    {
      var d := done.docs[i];
      assert DocOk(done.docs, i, buf, marks, Loose) && GoDoc(d, flat);
      PathEnd(d.part.inp, d.end);
    }
  }

  lemma PathEnd(b: seq<byte>, q: nat)
    requires Path(b, 1, q) && 1 <= |b|
    ensures q <= |b|
  {
    hide Scan;
    if q != 1 {
      PathOrder(b, 1, q);
      Beyond(b, 1);
    }
  }

  lemma Beyond(b: seq<byte>, p: nat)
    ensures Scan(b, p).Some? ==> p < |b|
  {
  }

  /** A finished body is right exactly when all documents were well-formed and their strings agree in form. */
  lemma GoRight(buf: seq<byte>, marks: set<nat>, done: Ledger, flat: bool, all: bool, from: Origins)
    requires Core(buf, |buf|, marks, marks, done, [], [], Loose) && Total(done.docs, |done.docs|) <= MAX_COUNT
    requires GoDocs(done.docs, flat) && AllLook(done.docs, flat, all, buf, from) && OriginsIn(from, InputSet(done.docs), flat, all)
    ensures |Write(Total(done.docs, |done.docs|))| <= 5
    ensures var n := Total(done.docs, |done.docs|);
            && (Right(Finished(buf, n), Inputs(done.docs), n) <==> AllParse(done.docs) && FormsAgree(InputSet(done.docs), flat, all))
            && (n > 0 ==> (Parse(Finished(buf, n), 1, [Item]) == Some(|buf|) <==> AllParse(done.docs)))
    ensures AllParse(done.docs) && FormsAgree(InputSet(done.docs), flat, all) ==>
      forall d: nat, j :: 0 <= j < |AllTrees(Inputs(done.docs), d)| ==> Clean(AllTrees(Inputs(done.docs), d)[j])
  {
    hide *;
    var docs, n := done.docs, Total(done.docs, |done.docs|);
    FinishedLaid(buf, marks, marks, done, [], [], Loose);
    FinishedKept(buf, marks, marks, done, [], [], Loose);
    FinishedSize(buf, marks, done, n);
    var body := Finished(buf, n);
    KeptAgree(docs, flat, all, buf, from);
    DocEnds(buf, marks, done, flat);
    WholesAll(docs, flat);
    BodyParses(body, docs, marks, flat, |Write(n)|);
    if AllParse(docs) {
      if AllKept(docs, buf) {
        FinishedMeaning(buf, marks, marks, done, [], [], Loose);
      } else {
        LaidChanged(body, docs, marks, Loose, |Write(n)|);
      }
    } else if Right(body, Inputs(docs), n) {
      RightRead(body, Inputs(docs), n);
    }
  }

  lemma RightRead(body: seq<byte>, parts: seq<Piece>, n: nat)
    requires Right(body, parts, n)
    ensures n > 0 ==> Parse(body, 1, [Item]) == Some(|body|)
  {
    hide Parse, Meaning, AllTrees;
  }

  lemma FinishedSize(buf: seq<byte>, marks: set<nat>, done: Ledger, n: nat)
    requires Core(buf, |buf|, marks, marks, done, [], [], Loose) && |Write(n)| <= 5
    ensures COUNT_AT + |Write(n)| <= |buf|
  {
  }

  lemma WholesAll(docs: seq<Doc>, flat: bool)
    requires GoDocs(docs, flat) && forall i :: 0 <= i < |docs| ==> docs[i].end <= |docs[i].part.inp|
    ensures AllParse(docs) <==> AllWhole(docs)
  {
    hide GoDoc, Whole, Parse;
    forall k | 0 <= k < |docs|
      ensures Parse(docs[k].part.inp, 1, [Item]).Some? <==> Whole(docs[k])
    {
      GoWhole(docs[k], flat);
    }
  }

  /** The body is one well-formed item exactly when every document is one. */
  lemma BodyParses(body: seq<byte>, docs: seq<Doc>, kept: set<nat>, flat: bool, w: nat)
    requires Laid(body, docs, kept, Loose, w) && GoDocs(docs, flat)
    requires forall i :: 0 <= i < |docs| ==> docs[i].end <= |docs[i].part.inp|
    ensures Total(docs, |docs|) > 0 ==> (Parse(body, 1, [Item]) == Some(|body|) <==> AllParse(docs))
    ensures Total(docs, |docs|) == 0 ==> AllParse(docs)
  {
    hide Laid, GoDoc, Parse, Filled, Meaning, AllTrees, Scan, Gaps, Chain;
    var n := Total(docs, |docs|);
    if n == 0 {
      forall k | 0 <= k < |docs|
        ensures Parse(docs[k].part.inp, 1, [Item]).Some?
      {
        NoneAsked(docs, k, |docs|);
        GoWhole(docs[k], flat);
        NoItems(docs[k].part.inp, docs[k].part.at);
      }
    } else if Parse(body, 1, [Item]) == Some(|body|) {
      LaidCounts(body, docs, kept, Loose, w);
      GoGaps(docs, flat, |docs|);
      BehindPads(body, docs, kept, Loose, w);
      LaidParses(body, docs, kept, Loose, w, |docs|);
      forall k | 0 <= k < |docs|
        ensures Parse(docs[k].part.inp, 1, [Item]).Some?
      {
        GoWhole(docs[k], flat);
      }
    } else if AllParse(docs) {
      WholesAll(docs, flat);
      var ks := LayingAll(body, docs, kept, Loose, w, |docs|);
      var ls := Found(body, docs, kept, Loose, w, ks);
    }
  }

  lemma {:induction false} NoneAsked(docs: seq<Doc>, i: nat, k: nat)
    requires i < k <= |docs| && Total(docs, k) == 0
    ensures docs[i].part.n == 0
    decreases k
  {
    if i < k - 1 {
      NoneAsked(docs, i, k - 1);
    }
  }

  // ----- the books kept of one document -----

  ghost predicate ImagesIn(docs: seq<Doc>, marks: set<nat>) {
    forall k, x :: 0 <= k < |docs| && x in docs[k].img ==> docs[k].img[x] in marks
  }

  /** The tables, where their strings come from, and what they say of all documents. */
  ghost predicate Books(inp: seq<byte>, flat: bool, all: bool, buf: seq<byte>, marks: set<nat>, docs: seq<Doc>, img: map<nat, nat>,
                        str: map<seq<byte>, nat>, obj: map<seq<byte>, nat>, from: Origins, table: map<nat, int>) {
    && TableOk(str, from.strings, buf, marks) && TableOk(obj, from.classes, buf, marks)
    && TraceOk(inp, table, img) && Looks(inp, flat, all, buf, img, from) && AllLook(docs, flat, all, buf, from)
    && OriginsIn(from, InputSet(docs) + {inp}, flat, all) && ImagesIn(docs, marks)
    && forall x :: x in img ==> img[x] in marks
  }

  lemma AllLookKept(docs: seq<Doc>, flat: bool, all: bool, was: seq<byte>, buf: seq<byte>, marks: set<nat>, from: Origins, from': Origins)
    requires AllLook(docs, flat, all, was, from) && SameTags(was, buf, marks) && MoreOrigins(from, from') && ImagesIn(docs, marks)
    ensures AllLook(docs, flat, all, buf, from')
  {
    hide Looks, SameTags, MoreOrigins;
    forall k | 0 <= k < |docs|
      ensures Looks(docs[k].part.inp, flat, all, buf, docs[k].img, from')
    {
      LooksKept(docs[k].part.inp, flat, all, was, buf, marks, docs[k].img, from, from');
    }
  }

  lemma SameSelf(buf: seq<byte>, marks: set<nat>, from: Origins)
    ensures SameTags(buf, buf, marks) && MoreOrigins(from, from)
  {
  }

  lemma BooksGrow(inp: seq<byte>, flat: bool, all: bool, was: seq<byte>, buf: seq<byte>, marks: set<nat>, marks': set<nat>, docs: seq<Doc>,
                  img: map<nat, nat>, str: map<seq<byte>, nat>, obj: map<seq<byte>, nat>, from: Origins, table: map<nat, int>)
    requires Books(inp, flat, all, was, marks, docs, img, str, obj, from, table) && SameTags(was, buf, marks) && marks <= marks'
    ensures Books(inp, flat, all, buf, marks', docs, img, str, obj, from, table)
  {
    SameSelf(was, marks, from);
    TableKept(str, from.strings, was, buf, marks, marks');
    TableKept(obj, from.classes, was, buf, marks, marks');
    LooksKept(inp, flat, all, was, buf, marks, img, from, from);
    AllLookKept(docs, flat, all, was, buf, marks, from, from);
    hide Looks, AllLook, TableOk, TraceOk, OriginsIn, SameTags;
  }

  lemma BooksImage(inp: seq<byte>, flat: bool, all: bool, buf: seq<byte>, marks: set<nat>, docs: seq<Doc>, img: map<nat, nat>,
                   str: map<seq<byte>, nat>, obj: map<seq<byte>, nat>, from: Origins, table: map<nat, int>, x: nat, v: nat)
    requires Books(inp, flat, all, buf, marks, docs, img, str, obj, from, table) && x !in img && v in marks
    requires TextAt(inp, x) ==> LooksAt(inp, flat, all, x, buf, v, from)
    ensures Books(inp, flat, all, buf, marks, docs, img[x := v], str, obj, from, table)
  {
    LooksMore(inp, flat, all, buf, img, x, v, from);
    TraceKept(inp, table, img, img[x := v]);
    hide Looks, AllLook, TableOk, TraceOk, OriginsIn, LooksAt;
  }

  lemma BooksString(inp: seq<byte>, flat: bool, all: bool, buf: seq<byte>, marks: set<nat>, docs: seq<Doc>, img: map<nat, nat>,
                    str: map<seq<byte>, nat>, obj: map<seq<byte>, nat>, from: Origins, table: map<nat, int>,
                    s: seq<byte>, v: nat, x: nat)
    requires Books(inp, flat, all, buf, marks, docs, img, str, obj, from, table) && s !in str
    requires EntryAt(v, (inp, x), s, buf, marks) && Looked(inp, flat, all, x)
    ensures var from' := from.(strings := from.strings[s := (inp, x)]);
            Books(inp, flat, all, buf, marks, docs, img, str[s := v], obj, from', table)
  {
    var from' := from.(strings := from.strings[s := (inp, x)]);
    SameSelf(buf, marks, from);
    TableMore(str, from.strings, buf, marks, s, v, (inp, x));
    OriginsString(from, InputSet(docs) + {inp}, flat, all, s, (inp, x), str.Keys);
    BooksMore(inp, flat, all, buf, marks, docs, img, str, obj, from, from', table);
    hide Looks, AllLook, TableOk, TraceOk, Looked, NameMet, SameTags, OriginsIn, ImagesIn, EntryAt;
  }

  /** The images seen through a larger table of origins. */
  lemma BooksMore(inp: seq<byte>, flat: bool, all: bool, buf: seq<byte>, marks: set<nat>, docs: seq<Doc>, img: map<nat, nat>,
                  str: map<seq<byte>, nat>, obj: map<seq<byte>, nat>, from: Origins, from': Origins, table: map<nat, int>)
    requires Books(inp, flat, all, buf, marks, docs, img, str, obj, from, table) && MoreOrigins(from, from')
    ensures Looks(inp, flat, all, buf, img, from') && AllLook(docs, flat, all, buf, from')
  {
    SameSelf(buf, marks, from);
    hide Looks, AllLook, TableOk, TraceOk, SameTags, OriginsIn, ImagesIn, MoreOrigins;
    LooksKept(inp, flat, all, buf, buf, marks, img, from, from');
    AllLookKept(docs, flat, all, buf, buf, marks, from, from');
  }

  lemma OriginsString(from: Origins, docs: set<seq<byte>>, flat: bool, all: bool, s: seq<byte>, o: Origin, known: set<seq<byte>>)
    requires OriginsIn(from, docs, flat, all) && StringFrom(o, docs, flat, all) && s !in known && known == from.strings.Keys
    ensures OriginsIn(from.(strings := from.strings[s := o]), docs, flat, all)
    ensures MoreOrigins(from, from.(strings := from.strings[s := o]))
  {
    hide StringFrom, ClassFrom;
  }

  lemma OriginsClass(from: Origins, docs: set<seq<byte>>, flat: bool, all: bool, s: seq<byte>, o: Origin, known: set<seq<byte>>)
    requires OriginsIn(from, docs, flat, all) && ClassFrom(o, docs, flat) && s !in known && known == from.classes.Keys
    ensures OriginsIn(from.(classes := from.classes[s := o]), docs, flat, all)
    ensures MoreOrigins(from, from.(classes := from.classes[s := o]))
  {
    hide StringFrom, ClassFrom;
  }

  lemma BooksClass(inp: seq<byte>, flat: bool, all: bool, buf: seq<byte>, marks: set<nat>, docs: seq<Doc>, img: map<nat, nat>,
                   str: map<seq<byte>, nat>, obj: map<seq<byte>, nat>, from: Origins, table: map<nat, int>,
                   s: seq<byte>, v: nat, x: nat)
    requires Books(inp, flat, all, buf, marks, docs, img, str, obj, from, table) && s !in obj
    requires EntryAt(v, (inp, x), s, buf, marks) && NameMet(inp, flat, x)
    ensures var from' := from.(classes := from.classes[s := (inp, x)]);
            Books(inp, flat, all, buf, marks, docs, img, str, obj[s := v], from', table)
  {
    var from' := from.(classes := from.classes[s := (inp, x)]);
    SameSelf(buf, marks, from);
    TableMore(obj, from.classes, buf, marks, s, v, (inp, x));
    OriginsClass(from, InputSet(docs) + {inp}, flat, all, s, (inp, x), obj.Keys);
    BooksMore(inp, flat, all, buf, marks, docs, img, str, obj, from, from', table);
    hide Looks, AllLook, TableOk, TraceOk, Looked, NameMet, SameTags, OriginsIn, ImagesIn, EntryAt;
  }

  lemma BooksTrace(inp: seq<byte>, flat: bool, all: bool, buf: seq<byte>, marks: set<nat>, docs: seq<Doc>, img: map<nat, nat>,
                   str: map<seq<byte>, nat>, obj: map<seq<byte>, nat>, from: Origins, table: map<nat, int>, i: nat, v: nat)
    requires Books(inp, flat, all, buf, marks, docs, img, str, obj, from, table) && (TextAt(inp, i) ==> i in img && img[i] == v)
    ensures Books(inp, flat, all, buf, marks, docs, img, str, obj, from, table[i := v])
  {
    hide Looks, AllLook, TableOk, OriginsIn, Scan, ImagesIn;
  }

  /** The same between documents. */
  ghost predicate Shelved(flat: bool, all: bool, buf: seq<byte>, marks: set<nat>, docs: seq<Doc>,
                          str: map<seq<byte>, nat>, obj: map<seq<byte>, nat>, from: Origins) {
    && TableOk(str, from.strings, buf, marks) && TableOk(obj, from.classes, buf, marks)
    && AllLook(docs, flat, all, buf, from) && OriginsIn(from, InputSet(docs), flat, all) && ImagesIn(docs, marks) && GoDocs(docs, flat)
  }

  lemma BooksOpen(inp: seq<byte>, flat: bool, all: bool, buf: seq<byte>, marks: set<nat>, docs: seq<Doc>,
                  str: map<seq<byte>, nat>, obj: map<seq<byte>, nat>, from: Origins, table: map<nat, int>)
    requires Shelved(flat, all, buf, marks, docs, str, obj, from) && forall x :: x in table ==> table[x] == -1
    ensures Books(inp, flat, all, buf, marks, docs, map[], str, obj, from, table)
  {
    hide Looked, NameMet, TableOk, AllLook, Scan;
  }

  lemma BooksClose(d: Doc, flat: bool, all: bool, buf: seq<byte>, marks: set<nat>, docs: seq<Doc>,
                   str: map<seq<byte>, nat>, obj: map<seq<byte>, nat>, from: Origins, table: map<nat, int>)
    requires Books(d.part.inp, flat, all, buf, marks, docs, d.img, str, obj, from, table) && GoDocs(docs, flat) && GoDoc(d, flat)
    ensures Shelved(flat, all, buf, marks, docs + [d], str, obj, from)
  {
    hide OriginsIn, TableOk, Looks, GoDoc, TraceOk;
    InputsMore(docs, d);
  }

  lemma InputsMore(docs: seq<Doc>, d: Doc)
    ensures InputSet(docs + [d]) == InputSet(docs) + {d.part.inp}
  {
    var more := docs + [d];
    forall b | b in InputSet(docs)
      ensures b in InputSet(more)
    {
      var k :| 0 <= k < |docs| && docs[k].part.inp == b;
      assert more[k].part.inp == b;
    }
    assert more[|docs|].part.inp == d.part.inp;
  }

  lemma StateDoc(inp: seq<byte>, flat: bool, e: nat, buf: seq<byte>, base: nat, marks: set<nat>, kept: set<nat>, done: Ledger,
                 m: map<nat, nat>, img: map<nat, nat>)
    requires Takeable(inp, flat) && Header(inp, flat).Some?
    requires var (at, n) := Header(inp, flat).value;
             Walk(inp, at, Items(n)).Some? && Walk(inp, at, Items(n)).value.0 == e && State(inp, at, e, buf, base, marks, kept, done, m, img)
    ensures var (at, n) := Header(inp, flat).value; GoDoc(Doc(Piece(inp, at, n), e, m, img), flat)
  {
    hide Takeable, Header, Walk, Core, Local, Path, Scan, Sound, ImageOf, Spelled;
    var (at, n) := Header(inp, flat).value;
    var d := Doc(Piece(inp, at, n), e, m, img);
    assert Covered(d.part.inp, d.part.at, d.end, d.img) && Header(inp, flat) == Some((at, n));
  }

  // ----- what the tables hold -----

  /** s is looked up among the strings somewhere in front of i. */
  ghost predicate Said(doc: seq<byte>, flat: bool, all: bool, i: nat, s: seq<byte>) {
    exists x: nat :: x < i && Looked(doc, flat, all, x) && Scan(doc, x).value.0.content == s
  }

  /** s is the class name of an object in front of i. */
  ghost predicate Named(doc: seq<byte>, flat: bool, i: nat, s: seq<byte>) {
    exists x: nat :: x < i && NameMet(doc, flat, x) && Scan(doc, x).value.0.content == s
  }

  /** The tables have been given exactly what was looked up in front of i. */
  ghost predicate Given(doc: seq<byte>, flat: bool, all: bool, i: nat, str0: set<seq<byte>>, obj0: set<seq<byte>>,
                        str: set<seq<byte>>, obj: set<seq<byte>>) {
    && (forall s :: s in str <==> s in str0 || Said(doc, flat, all, i, s))
    && (forall s :: s in obj <==> s in obj0 || Named(doc, flat, i, s))
  }

  /** The second pass stops at q, and that is what the tables have been given until then. */
  ghost predicate Stopped(doc: seq<byte>, flat: bool, all: bool, q: nat, str0: set<seq<byte>>, obj0: set<seq<byte>>,
                          str: set<seq<byte>>, obj: set<seq<byte>>) {
    FirstBlocked(doc, flat, q) && Given(doc, flat, all, q, str0, obj0, str, obj)
  }

  /** Nothing that is looked up in front of i is new. */
  ghost predicate NothingNew(doc: seq<byte>, flat: bool, all: bool, i: nat, str: set<seq<byte>>, obj: set<seq<byte>>) {
    && (forall x: nat :: x < i && Looked(doc, flat, all, x) ==> Scan(doc, x).value.0.content in str)
    && (forall x: nat :: x < i && NameMet(doc, flat, x) ==> Scan(doc, x).value.0.content in obj)
  }

  lemma GivenNothing(doc: seq<byte>, flat: bool, all: bool, i: nat, str0: set<seq<byte>>, obj0: set<seq<byte>>,
                     str: set<seq<byte>>, obj: set<seq<byte>>)
    requires Given(doc, flat, all, i, str0, obj0, str, obj)
    ensures str == str0 && obj == obj0 <==> NothingNew(doc, flat, all, i, str0, obj0)
  {
    hide Scan, Looked, NameMet;
    LookedNames(doc, flat, all);
    if str == str0 && obj == obj0 {
      forall x: nat | x < i && Looked(doc, flat, all, x)
        ensures Scan(doc, x).value.0.content in str0
      {
        assert Said(doc, flat, all, i, Scan(doc, x).value.0.content);
      }
      forall x: nat | x < i && NameMet(doc, flat, x)
        ensures Scan(doc, x).value.0.content in obj0
      {
        assert Named(doc, flat, i, Scan(doc, x).value.0.content);
      }
    }
  }

  /** The second pass stops in one place. */
  lemma StopsOnce(doc: seq<byte>, flat: bool, p: nat, q: nat)
    requires FirstBlocked(doc, flat, p) && FirstBlocked(doc, flat, q)
    ensures p == q
  {
    hide Scan, Path, Walk, Barred;
    MetAt(doc, flat, p);
    MetAt(doc, flat, q);
  }

  lemma MetAt(doc: seq<byte>, flat: bool, q: nat)
    requires Met(doc, flat, q)
    ensures Header(doc, flat).Some? && Path(doc, 1, q) && Header(doc, flat).value.0 <= q
  {
    hide Scan, Path, Walk, Header;
  }

  lemma LookedNames(doc: seq<byte>, flat: bool, all: bool)
    ensures forall x :: Looked(doc, flat, all, x) ==> TextAt(doc, x) && !NameAt(doc, x)
    ensures forall x :: NameMet(doc, flat, x) ==> TextAt(doc, x) && NameAt(doc, x) && Path(doc, 1, x)
    ensures forall x :: Looked(doc, flat, all, x) ==> Path(doc, 1, x) && Header(doc, flat).Some? && Header(doc, flat).value.0 <= x
    ensures forall x :: NameMet(doc, flat, x) ==> Header(doc, flat).Some? && Header(doc, flat).value.0 <= x
  {
    hide Scan, Path;
  }

  lemma GivenStart(doc: seq<byte>, flat: bool, all: bool, at: nat, str: set<seq<byte>>, obj: set<seq<byte>>)
    requires Header(doc, flat).Some? && Header(doc, flat).value.0 == at
    ensures Given(doc, flat, all, at, str, obj, str, obj)
  {
    hide Scan, Looked, NameMet, Header;
    LookedNames(doc, flat, all);
    assert forall s :: !Said(doc, flat, all, at, s) && !Named(doc, flat, at, s);
  }

  /** The strings in what has been read from i to j: the one at i, or the class name behind it. */
  lemma GivenWhere(doc: seq<byte>, flat: bool, all: bool, i: nat, j: nat, w: Option<seq<Want>>, x: nat)
    requires Opened(doc, i, j, w) && Path(doc, 1, i) && 1 <= i && !NameAt(doc, i) && i <= x < j
    ensures Looked(doc, flat, all, x) ==> x == i
    ensures NameMet(doc, flat, x) ==> x == i + 1 && IsObject(Scan(doc, i).value.0)
  {
    ObjectWide(doc, i);
    LookedNames(doc, flat, all);
    hide Scan, Path, Looked, NameMet, Wants;
    if (Looked(doc, flat, all, x) || NameMet(doc, flat, x)) && i < x {
      PathNoGap(doc, 1, i, x);
      NameOf(doc, i);
      PathStep(doc, 1, i);
      if i + 1 < x && IsObject(Scan(doc, i).value.0) {
        PathNoGap(doc, 1, i + 1, x);
      }
    }
  }

  lemma NameOf(doc: seq<byte>, i: nat)
    requires Path(doc, 1, i)
    ensures Scan(doc, i).Some? && IsObject(Scan(doc, i).value.0) ==> NameAt(doc, i + 1)
  {
    hide Scan, Path;
  }

  lemma GivenNext(doc: seq<byte>, flat: bool, all: bool, i: nat, j: nat, w: Option<seq<Want>>, str0: set<seq<byte>>, obj0: set<seq<byte>>,
                  str: set<seq<byte>>, obj: set<seq<byte>>, str': set<seq<byte>>, obj': set<seq<byte>>)
    requires Given(doc, flat, all, i, str0, obj0, str, obj)
    requires Opened(doc, i, j, w) && Path(doc, 1, i) && 1 <= i && !NameAt(doc, i) && i < j
    requires IsObject(Scan(doc, i).value.0) ==> NameMet(doc, flat, i + 1) && i + 1 < j
    requires str' == if Looked(doc, flat, all, i) then str + {Scan(doc, i).value.0.content} else str
    requires obj' == if IsObject(Scan(doc, i).value.0) then obj + {Scan(doc, i + 1).value.0.content} else obj
    ensures Given(doc, flat, all, j, str0, obj0, str', obj')
  {
    hide Scan, Path, Looked, NameMet, Wants, NameAt, IsObject;
    LookedNames(doc, flat, all);
    assert Scan(doc, i).Some?;
    forall x: nat | i <= x < j
      ensures Looked(doc, flat, all, x) ==> x == i
      ensures NameMet(doc, flat, x) ==> x == i + 1 && IsObject(Scan(doc, i).value.0)
    {
      GivenWhere(doc, flat, all, i, j, w, x);
    }
    forall s
      ensures Said(doc, flat, all, j, s) <==> Said(doc, flat, all, i, s) || (Looked(doc, flat, all, i) && Scan(doc, i).value.0.content == s)
    {
    }
    forall s
      ensures Named(doc, flat, j, s) <==>
              Named(doc, flat, i, s) || (IsObject(Scan(doc, i).value.0) && Scan(doc, i + 1).value.0.content == s)
    {
    }
  }

  // ----- one step, on both sides -----

  /** A plain tag was copied; a string that is looked up has been entered. */
  lemma CopiedStep(inp: seq<byte>, flat: bool, all: bool, at: nat, i: nat, was: seq<byte>, buf: seq<byte>, base: nat, marks: set<nat>,
                   kept: set<nat>, done: Ledger, m: map<nat, nat>, img: map<nat, nat>, str: map<seq<byte>, nat>, obj: map<seq<byte>, nat>,
                   from: Origins, table: map<nat, int>)
    requires State(inp, at, i, was, base, marks, kept, done, m, img) && !NameAt(inp, i) && Scan(inp, i).Some?
    requires Books(inp, flat, all, was, marks, done.docs, img, str, obj, from, table)
    requires Plain(Scan(inp, i).value.0) && buf == was + inp[i..Scan(inp, i).value.1]
    requires Looked(inp, flat, all, i) ==> Scan(inp, i).value.0.content !in str
    ensures var q := Scan(inp, i).value.1;
            State(inp, at, q, buf, base, marks + {|was|}, kept, done, m[q := |buf|], img[i := |was|])
    ensures Looked(inp, flat, all, i) ==>
      var s := Scan(inp, i).value.0.content;
      Books(inp, flat, all, buf, marks + {|was|}, done.docs, img[i := |was|], str[s := |was|], obj,
            from.(strings := from.strings[s := (inp, i)]), table)
    ensures !Looked(inp, flat, all, i) ==>
      Books(inp, flat, all, buf, marks + {|was|}, done.docs, img[i := |was|], str, obj, from, table)
  {
    hide Path, Sound, State, Books, Looked, NameAt;
    StateAt(inp, at, i, was, base, marks, kept, done, m, img);
    StepCopied(inp, at, i, was, buf, base, marks, kept, done, m, img);
    var marks' := marks + {|was|};
    BooksGrow(inp, flat, all, was, buf, marks, marks', done.docs, img, str, obj, from, table);
    hide Scan, Plain;
    if Looked(inp, flat, all, i) {
      LookedText(inp, flat, all, i);
      var s := Scan(inp, i).value.0.content;
      var from' := from.(strings := from.strings[s := (inp, i)]);
      assert EntryAt(|was|, (inp, i), s, buf, marks');
      BooksString(inp, flat, all, buf, marks', done.docs, img, str, obj, from, table, s, |was|, i);
      BooksImage(inp, flat, all, buf, marks', done.docs, img, str[s := |was|], obj, from', table, i, |was|);
    } else {
      BooksImage(inp, flat, all, buf, marks', done.docs, img, str, obj, from, table, i, |was|);
    }
  }

  /** A string that is looked up was written as a COPY of the one the table names. */
  lemma DedupedStep(inp: seq<byte>, flat: bool, all: bool, at: nat, i: nat, was: seq<byte>, buf: seq<byte>, base: nat, marks: set<nat>,
                    kept: set<nat>, done: Ledger, m: map<nat, nat>, img: map<nat, nat>, str: map<seq<byte>, nat>, obj: map<seq<byte>, nat>,
                    from: Origins, table: map<nat, int>, v: nat)
    requires TextAt(inp, i) && Scan(inp, i).value.0.content in str && str[Scan(inp, i).value.0.content] == v
    requires !NameAt(inp, i) && Looked(inp, flat, all, i) && buf == was + [COPY] + Write(v)
    requires State(inp, at, i, was, base, marks, kept, done, m, img)
    requires Books(inp, flat, all, was, marks, done.docs, img, str, obj, from, table)
    ensures var q := Scan(inp, i).value.1;
            && State(inp, at, q, buf, base, marks + {|was|}, kept, done, m[q := |buf|], img[i := v])
            && Books(inp, flat, all, buf, marks + {|was|}, done.docs, img[i := v], str, obj, from, table)
  {
    hide Path, Sound, State, Looked, NameAt, Looks, AllLook, OriginsIn, TraceOk, Scan;
    StateAt(inp, at, i, was, base, marks, kept, done, m, img);
    var s := Scan(inp, i).value.0.content;
    assert EntryAt(v, from.strings[s], s, was, marks);
    hide Books;
    assert TextTwin(Scan(inp, i).value.0, was, v, |was|, marks);
    StepDeduped(inp, at, i, was, buf, base, marks, kept, done, m, img, v);
    BooksGrow(inp, flat, all, was, buf, marks, marks + {|was|}, done.docs, img, str, obj, from, table);
    BooksImage(inp, flat, all, buf, marks + {|was|}, done.docs, img, str, obj, from, table, i, v);
  }

  /** A COPY was written with its new offset. */
  lemma LinkedStep(inp: seq<byte>, flat: bool, all: bool, at: nat, i: nat, was: seq<byte>, buf: seq<byte>, base: nat, marks: set<nat>,
                   kept: set<nat>, done: Ledger, m: map<nat, nat>, img: map<nat, nat>, str: map<seq<byte>, nat>, obj: map<seq<byte>, nat>,
                   from: Origins, table: map<nat, int>, h: byte, v: nat)
    requires Scan(inp, i).Some? && Scan(inp, i).value.0.Copy? && h % HIGH == COPY
    requires Scan(inp, i).value.0.target in img && img[Scan(inp, i).value.0.target] == v && v < |was|
    requires buf == was + [h] + Write(v)
    requires State(inp, at, i, was, base, marks, kept, done, m, img)
    requires Books(inp, flat, all, was, marks, done.docs, img, str, obj, from, table)
    ensures var q := Scan(inp, i).value.1;
            && State(inp, at, q, buf, base, marks + {|was|}, kept, done, m[q := |buf|], img[i := |was|])
            && Books(inp, flat, all, buf, marks + {|was|}, done.docs, img[i := |was|], str, obj, from, table)
  {
    hide Path, Sound, State, Books, Scan;
    StateAt(inp, at, i, was, base, marks, kept, done, m, img);
    StepLink(inp, at, i, was, buf, base, marks, kept, done, m, img, h, v);
    BooksGrow(inp, flat, all, was, buf, marks, marks + {|was|}, done.docs, img, str, obj, from, table);
    BooksImage(inp, flat, all, buf, marks + {|was|}, done.docs, img, str, obj, from, table, i, |was|);
  }

  /** The object at i and its class name s, which ends at e. */
  ghost predicate ObjectIn(inp: seq<byte>, flat: bool, i: nat, e: nat, s: seq<byte>) {
    && Scan(inp, i).Some? && IsObject(Scan(inp, i).value.0) && Scan(inp, i).value.1 == i + 1
    && TextAt(inp, i + 1) && Scan(inp, i + 1).value.1 == e && Scan(inp, i + 1).value.0.content == s
    && NameMet(inp, flat, i + 1)
  }

  lemma ObjectCopiedStep(inp: seq<byte>, flat: bool, all: bool, at: nat, i: nat, e: nat, s: seq<byte>, was: seq<byte>, buf: seq<byte>,
                         base: nat, marks: set<nat>, kept: set<nat>, done: Ledger, m: map<nat, nat>, img: map<nat, nat>,
                         str: map<seq<byte>, nat>, obj: map<seq<byte>, nat>, from: Origins, table: map<nat, int>)
    requires ObjectIn(inp, flat, i, e, s) && s !in obj && buf == was + inp[i..e]
    requires State(inp, at, i, was, base, marks, kept, done, m, img)
    requires Books(inp, flat, all, was, marks, done.docs, img, str, obj, from, table)
    ensures var marks', img' := marks + {|was|} + {|was| + 1}, img[i := |was|][i + 1 := |was| + 1];
            && State(inp, at, e, buf, base, marks', kept, done, m[e := |buf|], img')
            && Books(inp, flat, all, buf, marks', done.docs, img', str, obj[s := |was| + 1],
                     from.(classes := from.classes[s := (inp, i + 1)]), table)
  {
    hide Path, Sound, State, Books, Scan, NameMet;
    StateAt(inp, at, i, was, base, marks, kept, done, m, img);
    StepObjectCopied(inp, at, i, was, buf, base, marks, kept, done, m, img);
    var marks', from' := marks + {|was|} + {|was| + 1}, from.(classes := from.classes[s := (inp, i + 1)]);
    BooksGrow(inp, flat, all, was, buf, marks, marks', done.docs, img, str, obj, from, table);
    assert EntryAt(|was| + 1, (inp, i + 1), s, buf, marks');
    BooksClass(inp, flat, all, buf, marks', done.docs, img, str, obj, from, table, s, |was| + 1, i + 1);
    BooksImage(inp, flat, all, buf, marks', done.docs, img, str, obj[s := |was| + 1], from', table, i, |was|);
    IsName(inp, flat, i + 1);
    BooksImage(inp, flat, all, buf, marks', done.docs, img[i := |was|], str, obj[s := |was| + 1], from', table, i + 1, |was| + 1);
  }

  lemma IsName(inp: seq<byte>, flat: bool, x: nat)
    ensures NameMet(inp, flat, x) ==> NameAt(inp, x)
  {
  }

  /** What stands at v is the string s in the form of its origin. */
  ghost predicate Known(from: map<seq<byte>, Origin>, s: seq<byte>, buf: seq<byte>, v: nat) {
    && s in from && OriginOk(from[s], s) && Scan(buf, v).Some? && Scan(buf, v).value.0 == TokenOf(from[s])
  }

  /** What the table says of a class name. */
  lemma BookedClass(inp: seq<byte>, flat: bool, all: bool, buf: seq<byte>, marks: set<nat>, docs: seq<Doc>, img: map<nat, nat>,
                    str: map<seq<byte>, nat>, obj: map<seq<byte>, nat>, from: Origins, table: map<nat, int>,
                    s: seq<byte>, v: nat, x: nat)
    requires Books(inp, flat, all, buf, marks, docs, img, str, obj, from, table) && s in obj && obj[s] == v
    requires TextAt(inp, x) && Scan(inp, x).value.0.content == s && forall y :: y in marks ==> y < |buf|
    ensures v in marks && TextTwin(Scan(inp, x).value.0, buf, v, |buf|, marks)
    ensures Known(from.classes, s, buf, v)
  {
    hide Looks, AllLook, OriginsIn, TraceOk, Scan, ImagesIn;
    assert EntryAt(v, from.classes[s], s, buf, marks);
  }

  lemma KnownKept(from: map<seq<byte>, Origin>, s: seq<byte>, was: seq<byte>, buf: seq<byte>, marks: set<nat>, v: nat)
    requires SameTags(was, buf, marks) && v in marks && Known(from, s, was, v)
    ensures Known(from, s, buf, v)
  {
    hide Scan, OriginOk, TokenOf;
  }

  lemma ObjectIsNoText(inp: seq<byte>, flat: bool, i: nat, e: nat, s: seq<byte>)
    requires ObjectIn(inp, flat, i, e, s)
    ensures !TextAt(inp, i) && TextAt(inp, i + 1) && Scan(inp, i + 1).value.0.content == s && NameMet(inp, flat, i + 1)
  {
    hide Scan, NameMet;
  }

  lemma NameLooks(inp: seq<byte>, flat: bool, all: bool, x: nat, buf: seq<byte>, v: nat, from: Origins, s: seq<byte>)
    requires TextAt(inp, x) && NameAt(inp, x) && Scan(inp, x).value.0.content == s && Known(from.classes, s, buf, v)
    ensures LooksAt(inp, flat, all, x, buf, v, from)
  {
    hide Scan, NameAt, Looked, OriginOk, TokenOf;
  }

  lemma ObjectParts(inp: seq<byte>, flat: bool, i: nat, e: nat, s: seq<byte>)
    requires ObjectIn(inp, flat, i, e, s)
    ensures Scan(inp, i).Some? && IsObject(Scan(inp, i).value.0) && TextAt(inp, i + 1)
    ensures Scan(inp, i).value.1 == i + 1 && Scan(inp, i + 1).value.1 == e
  {
    hide Scan, NameMet;
  }

  /** The tag that points at a class name, in place of the object at i. */
  ghost predicate AsObjectV(inp: seq<byte>, i: nat, was: seq<byte>, buf: seq<byte>, v: nat) {
    && Scan(inp, i).Some? && Scan(inp, i).value.0.Open?
    && buf == was + [if Scan(inp, i).value.0.tag == OBJECT then OBJECTV else OBJECTV_FREEZE] + Write(v)
  }

  /** An object and its class name, which the table names. */
  lemma BooksObject(inp: seq<byte>, flat: bool, all: bool, i: nat, e: nat, s: seq<byte>, was: seq<byte>, buf: seq<byte>, marks: set<nat>,
                    docs: seq<Doc>, img: map<nat, nat>, str: map<seq<byte>, nat>, obj: map<seq<byte>, nat>, from: Origins,
                    table: map<nat, int>, v: nat, img': map<nat, nat>)
    requires img' == img[i := |was|][i + 1 := v]
    requires v in marks && Known(from.classes, s, was, v)
    requires ObjectIn(inp, flat, i, e, s) && i !in img && i + 1 !in img
    requires Books(inp, flat, all, was, marks, docs, img, str, obj, from, table) && SameTags(was, buf, marks)
    ensures Books(inp, flat, all, buf, marks + {|was|}, docs, img', str, obj, from, table)
  {
    hide *;
    var marks' := marks + {|was|};
    ObjectIsNoText(inp, flat, i, e, s);
    IsName(inp, flat, i + 1);
    BooksGrow(inp, flat, all, was, buf, marks, marks', docs, img, str, obj, from, table);
    KnownKept(from.classes, s, was, buf, marks, v);
    NameLooks(inp, flat, all, i + 1, buf, v, from, s);
    BooksImage(inp, flat, all, buf, marks', docs, img, str, obj, from, table, i, |was|);
    BooksImage(inp, flat, all, buf, marks', docs, img[i := |was|], str, obj, from, table, i + 1, v);
  }

  lemma ObjectVBytes(inp: seq<byte>, i: nat, was: seq<byte>, buf: seq<byte>, v: nat)
    requires AsObjectV(inp, i, was, buf, v)
    ensures Scan(inp, i).Some? && Scan(inp, i).value.0.Open?
    ensures buf == was + [if Scan(inp, i).value.0.tag == OBJECT then OBJECTV else OBJECTV_FREEZE] + Write(v)
  {
    hide Scan;
  }

  lemma ObjectDedupedStep(inp: seq<byte>, flat: bool, all: bool, at: nat, i: nat, e: nat, s: seq<byte>, was: seq<byte>, buf: seq<byte>,
                          base: nat, marks: set<nat>, kept: set<nat>, done: Ledger, m: map<nat, nat>, img: map<nat, nat>,
                          str: map<seq<byte>, nat>, obj: map<seq<byte>, nat>, from: Origins, table: map<nat, int>, v: nat,
                          img': map<nat, nat>)
    requires s in obj && obj[s] == v && img' == img[i := |was|][i + 1 := v]
    requires ObjectIn(inp, flat, i, e, s)
    requires AsObjectV(inp, i, was, buf, v)
    requires State(inp, at, i, was, base, marks, kept, done, m, img)
    requires Books(inp, flat, all, was, marks, done.docs, img, str, obj, from, table)
    ensures State(inp, at, e, buf, base, marks + {|was|}, kept, done, m[e := |buf|], img')
    ensures Books(inp, flat, all, buf, marks + {|was|}, done.docs, img', str, obj, from, table)
  {
    hide *;
    StateAt(inp, at, i, was, base, marks, kept, done, m, img);
    ObjectIsNoText(inp, flat, i, e, s);
    ObjectParts(inp, flat, i, e, s);
    BookedClass(inp, flat, all, was, marks, done.docs, img, str, obj, from, table, s, v, i + 1);
    ObjectVBytes(inp, i, was, buf, v);
    StepObjectDeduped(inp, at, i, was, buf, base, marks, kept, done, m, img, v);
    BooksObject(inp, flat, all, i, e, s, was, buf, marks, done.docs, img, str, obj, from, table, v, img');
  }
}
