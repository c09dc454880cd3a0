/** Runs of the Go merger on given documents: one that goes well, and those that show what is lost. */
module GoRuns {
  import opened Varint
  import opened Wire
  import opened Mapping
  import opened MergerState
  import opened MergerResult
  import opened GoMergeState
  import opened GoForms
  import opened GoMerger
  import opened Tags

  // ----- documents -----

  /** An array of two equal strings, the second a COPY of the first. */
  const COPIED: seq<byte> := [0, ARRAYREF + 2, SHORT_BINARY + 2, 97, 98, COPY, 2]

  /** An array of an empty short string and a COPY right behind it. */
  const ADJOINING: seq<byte> := [0, ARRAYREF + 2, SHORT_BINARY, COPY, 2]

  /** An array of an object of class A, the string ab, and a COPY of the class name. */
  const NAMED: seq<byte> := [0, ARRAYREF + 3, OBJECT, SHORT_BINARY + 1, 65, UNDEF, SHORT_BINARY + 2, 97, 98, COPY, 3]

  /** The string ab. */
  const WORD_AB: seq<byte> := [0, SHORT_BINARY + 2, 97, 98]

  /** A hash with the key ab, as bytes and as text. */
  const BYTES_KEY: seq<byte> := [0, HASHREF + 1, SHORT_BINARY + 2, 97, 98, 1]
  const TEXT_KEY: seq<byte> := [0, HASHREF + 1, STR_UTF8, 2, 97, 98, 1]

  lemma CopiedTags()
    ensures Scan(COPIED, 1) == Some((Open(ARRAYREF, 2), 2)) && Scan(COPIED, 2) == Some((Text(false, [97, 98]), 5))
    ensures Scan(COPIED, 5) == Some((Copy(2), 7)) && Scan(COPIED, 7) == None && |COPIED| == 7
  {
    assert COPIED[3..5] == [97, 98];
    assert Read(COPIED, 6) == Some((2, 7));
  }

  lemma CopiedPath(q: nat)
    ensures Path(COPIED, 1, q) <==> q in {1, 2, 5, 7}
  {
    CopiedTags();
    hide Scan, Path;
    PathTo(COPIED, 1, q);
    PathTo(COPIED, 2, q);
    PathTo(COPIED, 5, q);
    PathTo(COPIED, 7, q);
  }

  lemma CopiedParse()
    ensures Parse(COPIED, 1, [Item]) == Some(7)
  {
    CopiedTags();
    hide Scan;
    ParseItem(COPIED, 1);
    assert Parse(COPIED, 7, Items(0)) == Some(7);
    Rest(COPIED, 5, 7, 0);
    Rest(COPIED, 2, 5, 1);
  }

  /** A document that is one item, kept as it is. */
  lemma PlainHeader(doc: seq<byte>)
    requires Parse(doc, 1, [Item]).Some?
    ensures Header(doc, false) == Some((1, 1)) && Path(doc, 1, 1)
    ensures Walk(doc, 1, Items(1)) == Some((Parse(doc, 1, [Item]).value, []))
  {
    assert Items(1) == [Item];
    ParseWalk(doc, 1, [Item]);
    PathSelf(doc, 1);
  }

  lemma CopiedTaken()
    ensures Takeable(COPIED, false) && Traceable(COPIED, false) && Path(COPIED, 1, |COPIED|)
  {
    CopiedTags();
    CopiedParse();
    hide Scan, Path, Noted, Parse, Walk;
    PlainHeader(COPIED);
    forall q | Path(COPIED, 1, q) && Scan(COPIED, q).Some?
      ensures TagSound(COPIED, q) && TagTakeable(COPIED, q)
    {
      CopiedPath(q);
      CopiedPath(2);
    }
    forall q: nat | Path(COPIED, 1, q)
      ensures CopyAt(COPIED, q) ==> Far(COPIED, q)
      ensures q >= 1 ==> !Barred(COPIED, 1, q)
    {
      CopiedPath(q);
      CopiedFree(2);
    }
    CopiedPath(7);
  }

  /** Nothing keeps the string from being found. */
  lemma CopiedFree(x: nat)
    requires x == 2
    ensures !Blocked(COPIED, 1, x)
  {
    CopiedTags();
    forall c | c in Noted(COPIED, 1) && c <= x
      ensures !Unasked(COPIED, 1, c)
    {
      CopiedPath(1);
      CopiedPath(0);
      assert Noted(COPIED, 7) == {};
      assert Noted(COPIED, 5) == {2};
      assert Noted(COPIED, 2) == {2};
      assert Noted(COPIED, 1) == {2};
    }
  }

  // ----- a COPY right behind its string -----

  lemma AdjoiningTags()
    ensures Scan(ADJOINING, 1) == Some((Open(ARRAYREF, 2), 2)) && Scan(ADJOINING, 2) == Some((Text(false, []), 3))
    ensures Scan(ADJOINING, 3) == Some((Copy(2), 5)) && Scan(ADJOINING, 5) == None && |ADJOINING| == 5
  {
    assert ADJOINING[3..3] == [];
    assert Read(ADJOINING, 4) == Some((2, 5));
  }

  lemma AdjoiningPath(q: nat)
    ensures Path(ADJOINING, 1, q) <==> q in {1, 2, 3, 5}
  {
    AdjoiningTags();
    hide Scan, Path;
    PathTo(ADJOINING, 1, q);
    PathTo(ADJOINING, 2, q);
    PathTo(ADJOINING, 3, q);
    PathTo(ADJOINING, 5, q);
  }

  lemma AdjoiningTaken()
    ensures Takeable(ADJOINING, false) && Parse(ADJOINING, 1, [Item]) == Some(5) && Path(ADJOINING, 1, |ADJOINING|)
    ensures !AllFar(ADJOINING)
  {
    AdjoiningTags();
    hide Scan, Path, Noted, Walk;
    ParseItem(ADJOINING, 1);
    assert Parse(ADJOINING, 5, Items(0)) == Some(5);
    Rest(ADJOINING, 3, 5, 0);
    Rest(ADJOINING, 2, 3, 1);
    PlainHeader(ADJOINING);
    forall q | Path(ADJOINING, 1, q) && Scan(ADJOINING, q).Some?
      ensures TagSound(ADJOINING, q) && TagTakeable(ADJOINING, q)
    {
      AdjoiningPath(q);
      AdjoiningPath(2);
    }
    AdjoiningPath(3);
    AdjoiningPath(5);
    assert CopyAt(ADJOINING, 3) && !Far(ADJOINING, 3);
  }

  // ----- a COPY of a class name -----

  lemma NamedTags()
    ensures Scan(NAMED, 1) == Some((Open(ARRAYREF, 3), 2)) && Scan(NAMED, 2) == Some((Open(OBJECT, 0), 3))
    ensures Scan(NAMED, 3) == Some((Text(false, [65]), 5)) && Scan(NAMED, 5) == Some((Leaf(UNDEF, []), 6))
    ensures Scan(NAMED, 6) == Some((Text(false, [97, 98]), 9)) && Scan(NAMED, 9) == Some((Copy(3), 11)) && Scan(NAMED, 11) == None
    ensures |NAMED| == 11
  {
    ShortScan(NAMED, 3);
    ShortScan(NAMED, 6);
    TextCase(NAMED, 3);
    TextCase(NAMED, 6);
    OpenScan(NAMED, 1);
    ObjectCase(NAMED, 2);
    LinkScan(NAMED, 9, COPY);
    Beyond(NAMED, 11);
    assert Read(NAMED, 10) == Some((3, 11));
    NamedConstant();
    hide Scan, Read;
    assert NAMED[4..5] == [65] && NAMED[7..9] == [97, 98];
  }

  lemma NamedConstant()
    ensures Scan(NAMED, 5) == Some((Leaf(UNDEF, []), 6))
  {
  }

  lemma NamedPath(q: nat)
    ensures Path(NAMED, 1, q) <==> q in {1, 2, 3, 5, 6, 9, 11}
  {
    NamedTags();
    hide Scan, Path;
    PathTo(NAMED, 1, q);
    PathTo(NAMED, 2, q);
    PathTo(NAMED, 3, q);
    PathTo(NAMED, 5, q);
    PathTo(NAMED, 6, q);
    PathTo(NAMED, 9, q);
    PathTo(NAMED, 11, q);
  }

  lemma NamedParse()
    ensures Parse(NAMED, 1, [Item]) == Some(11)
  {
    NamedTags();
    hide Scan;
    ParseItem(NAMED, 1);
    assert Parse(NAMED, 11, Items(0)) == Some(11);
    Rest(NAMED, 9, 11, 0);
    Rest(NAMED, 6, 9, 1);
    ParseSplit(NAMED, 2, [Item], Items(2));
    assert Items(3) == [Item] + Items(2);
    ParseItem(NAMED, 2);
    ObjectEnds(NAMED, 3, 5, 6);
  }

  /** A class name and a constant behind it. */
  lemma ObjectEnds(b: seq<byte>, p: nat, q: nat, e: nat)
    requires TextAt(b, p) && Scan(b, p).value.1 == q && Scan(b, q) == Some((Leaf(UNDEF, []), e))
    ensures Parse(b, p, [Key, Item]) == Some(e)
  {
    hide Scan;
    assert [Key, Item][1..] == [Item] && [] + [Item] == [Item];
    ParseItem(b, q);
    assert Parse(b, e, []) == Some(e);
    assert Parse(b, p, [Key, Item]) == Parse(b, q, [Item]);
  }

  lemma NamedTaken()
    ensures Takeable(NAMED, false) && Path(NAMED, 1, |NAMED|) && AllFar(NAMED)
    ensures FirstBlocked(NAMED, false, 9) && Looked(NAMED, false, true, 6) && Scan(NAMED, 6).value.0.content == [97, 98]
  {
    NamedTags();
    NamedParse();
    hide Scan, Path, Noted, Walk, Parse;
    PlainHeader(NAMED);
    NamedPath(3);
    NamedPath(6);
    NamedPath(9);
    NamedPath(11);
    NamedBlocked();
    forall q | Path(NAMED, 1, q)
      ensures Scan(NAMED, q).Some? ==> TagSound(NAMED, q) && TagTakeable(NAMED, q)
      ensures CopyAt(NAMED, q) ==> q == 9
      ensures q == 6 ==> !NameAt(NAMED, q)
    {
      NamedPath(q);
      NamedPath(5);
    }
    assert Far(NAMED, 9) && Barred(NAMED, 1, 9);
  }

  /** The class name is asked for, and is not found. */
  lemma NamedBlocked()
    ensures Blocked(NAMED, 1, 3)
  {
    NamedTags();
    NamedPath(2);
    NamedPath(9);
    hide Scan, Path;
    NotedLinks(NAMED, 1, 9);
    assert 3 in Links(Scan(NAMED, 9).value.0);
    assert NameAt(NAMED, 3);
    assert Unasked(NAMED, 1, 3);
  }

  // ----- one key in two forms -----

  lemma KeyTags(doc: seq<byte>)
    requires doc == BYTES_KEY || doc == TEXT_KEY
    ensures var e := if doc == TEXT_KEY then 6 else 5;
            && Scan(doc, 1) == Some((Open(HASHREF, 1), 2)) && Scan(doc, 2) == Some((Text(doc == TEXT_KEY, [97, 98]), e))
            && Scan(doc, e) == Some((Leaf(1, []), e + 1)) && Scan(doc, e + 1) == None && |doc| == e + 1
  {
    assert BYTES_KEY[3..5] == [97, 98] && TEXT_KEY[4..6] == [97, 98];
    assert Read(TEXT_KEY, 3) == Some((2, 4));
  }

  lemma KeyPath(doc: seq<byte>, q: nat)
    requires doc == BYTES_KEY || doc == TEXT_KEY
    ensures Path(doc, 1, q) <==> q in {1, 2, |doc| - 1, |doc|}
  {
    KeyTags(doc);
    hide Scan, Path;
    PathTo(doc, 1, q);
    PathTo(doc, 2, q);
    PathTo(doc, |doc| - 1, q);
    PathTo(doc, |doc|, q);
  }

  lemma KeyParse(doc: seq<byte>)
    requires doc == BYTES_KEY || doc == TEXT_KEY
    ensures Parse(doc, 1, [Item]) == Some(|doc|)
  {
    KeyTags(doc);
    hide Scan;
    ParseItem(doc, 1);
    var e := |doc| - 1;
    assert Wants(Open(HASHREF, 1)) == [Key, Item];
    assert [Key, Item][1..] == [Item] && [] + [Item] == [Item];
    ParseItem(doc, e);
    assert Parse(doc, |doc|, []) == Some(|doc|);
    assert Parse(doc, 2, [Key, Item]) == Parse(doc, e, [Item]);
  }

  lemma KeyTag(doc: seq<byte>, q: nat)
    requires (doc == BYTES_KEY || doc == TEXT_KEY) && Path(doc, 1, q)
    ensures Scan(doc, q).Some? ==> TagSound(doc, q) && TagTakeable(doc, q)
    ensures !CopyAt(doc, q) && (q == 2 ==> !NameAt(doc, q))
  {
    KeyTags(doc);
    KeyPath(doc, q);
    KeyPath(doc, 1);
    hide Scan, Path, BYTES_KEY, TEXT_KEY;
  }

  lemma KeyTaken(doc: seq<byte>)
    requires doc == BYTES_KEY || doc == TEXT_KEY
    ensures Takeable(doc, false) && Path(doc, 1, |doc|) && Traceable(doc, false)
  {
    KeyTags(doc);
    KeyParse(doc);
    KeyPath(doc, |doc|);
    PlainHeader(doc);
    hide Scan, Path, Noted, Walk, Parse, CopyAt, TagSound, TagTakeable, BYTES_KEY, TEXT_KEY, Header;
    forall q | Path(doc, 1, q)
      ensures Scan(doc, q).Some? ==> TagSound(doc, q) && TagTakeable(doc, q)
      ensures !CopyAt(doc, q)
    {
      KeyTag(doc, q);
    }
  }

  lemma KeyLooked(doc: seq<byte>)
    requires doc == BYTES_KEY || doc == TEXT_KEY
    ensures Looked(doc, false, false, 2)
  {
    KeyTags(doc);
    KeyParse(doc);
    KeyPath(doc, 2);
    KeyTag(doc, 2);
    KeyIsDue(doc);
    PlainHeader(doc);
    hide Scan, Path, Walk, Parse, NameAt, KeyDue;
  }

  lemma KeyIsDue(doc: seq<byte>)
    requires doc == BYTES_KEY || doc == TEXT_KEY
    ensures KeyDue(doc, 1, Items(1), 2)
  {
    KeyTags(doc);
    hide Scan;
    assert Items(1) == [Item] && Behind(Open(HASHREF, 1), [Item]) == [Key, Item];
    assert KeyDue(doc, 2, [Key, Item], 2);
  }

  lemma NothingTaken()
    ensures Takeable(NOTHING, false) && Path(NOTHING, 1, 1) && Traceable(NOTHING, false) && Parse(NOTHING, 1, [Item]).None?
  {
    assert Header(NOTHING, false) == Some((1, 1)) && Items(1) == [Item];
    forall q | Path(NOTHING, 1, q)
      ensures q == 1 && Scan(NOTHING, q).None?
    {
    }
    PathSelf(NOTHING, 1);
    hide Path;
    assert Walk(NOTHING, 1, Items(1)) == Some((1, Items(1)));
  }

  // ----- runs -----

  lemma PlainPiece(doc: seq<byte>)
    ensures PieceOf(doc, false) == Piece(doc, 1, 1)
  {
  }

  lemma OnePiece(doc: seq<byte>)
    ensures PiecesOf([doc], false) == [Piece(doc, 1, 1)] && Sum([Piece(doc, 1, 1)]) == 1
    ensures SetOf([doc]) == {doc} && Bytes([doc]) == |doc|
  {
    PlainPiece(doc);
    assert SetOf([doc]) == {[doc][0]};
    assert [doc][..0] == [];
    assert [Piece(doc, 1, 1)][..0] == [];
  }

  lemma TwoPieces(c: seq<byte>, d: seq<byte>)
    ensures PiecesOf([c, d], false) == [Piece(c, 1, 1), Piece(d, 1, 1)] && Sum([Piece(c, 1, 1), Piece(d, 1, 1)]) == 2
    ensures c in SetOf([c, d]) && d in SetOf([c, d]) && Bytes([c, d]) == |c| + |d|
  {
    PlainPiece(c);
    PlainPiece(d);
    OnePiece(c);
    assert [c, d][0] == c && [c, d][1] == d;
    assert [c, d][..1] == [c];
    assert [Piece(c, 1, 1), Piece(d, 1, 1)][..1] == [Piece(c, 1, 1)];
  }

  /** One key, as bytes in one document and as text in the next: the second is merged as bytes. */
  method KeyChangesForm() returns (r: Ending, body: seq<byte>)
    ensures r.Ok? && Parse(body, 1, [Item]) == Some(|body|) && !Right(body, [Piece(BYTES_KEY, 1, 1), Piece(TEXT_KEY, 1, 1)], 2)
  {
    hide Takeable, Traceable, Scan, Path, Parse, Right, FormsAgree, Looked, AllTrees, Clean, Sum, SetOf, Bytes;
    KeyTaken(BYTES_KEY);
    KeyTaken(TEXT_KEY);
    KeyParse(BYTES_KEY);
    KeyParse(TEXT_KEY);
    FormsDiffer({BYTES_KEY, TEXT_KEY} + SetOf([BYTES_KEY, TEXT_KEY]));
    TwoPieces(BYTES_KEY, TEXT_KEY);
    var docs := [BYTES_KEY, TEXT_KEY];
    assert SetOf(docs) == {BYTES_KEY, TEXT_KEY} + SetOf(docs);
    r, body := MergeAll(false, false, docs);
  }

  lemma FormsDiffer(docs: set<seq<byte>>)
    requires BYTES_KEY in docs && TEXT_KEY in docs
    ensures !FormsAgree(docs, false, false)
  {
    KeyTags(BYTES_KEY);
    KeyTags(TEXT_KEY);
    KeyLooked(BYTES_KEY);
    KeyLooked(TEXT_KEY);
    hide Scan, Looked, BYTES_KEY, TEXT_KEY;
    assert !Alike(BYTES_KEY, 2, TEXT_KEY, 2);
  }

  /** An empty body is accepted and counted, as any document cut short between two tags would be; the
      result then lacks an element. */
  method EmptyDocument(dedupeStrings: bool) returns (r: Ending, body: seq<byte>)
    ensures r.Ok? && Parse(body, 1, [Item]) != Some(|body|)
  {
    NothingTaken();
    OnePiece(NOTHING);
    hide Takeable, Traceable, Scan, Path, Parse, Right, FormsAgree, AllTrees, Clean, Sum, SetOf, Bytes;
    assert Parse([NOTHING][0], 1, [Item]).None?;
    r, body := MergeAll(dedupeStrings, false, [NOTHING]);
  }

  /** Nothing is merged: the body of an empty array, with room for a larger count. */
  method EmptyRun(dedupeStrings: bool, keepFlat: bool) returns (r: Ending, body: seq<byte>)
    ensures r.Ok? && body == [0, 40, 43, 0, 63, 63, 63, 63]
  {
    hide Core, Laid, Right, AllParse, FormsAgree, AllTrees, Clean, Merger.AtRest, Merger.Resting;
    var mrg := new Merger(dedupeStrings, keepFlat);
    r, body := mrg.Finish();
  }

  /** A document that goes through, its COPY and all. */
  method CopiedRun(dedupeStrings: bool) returns (r: Ending, body: seq<byte>)
    ensures r.Ok? && Right(body, [Piece(COPIED, 1, 1)], 1)
  {
    CopiedTaken();
    CopiedParse();
    CopiedAlike(dedupeStrings);
    OnePiece(COPIED);
    hide Takeable, Traceable, Scan, Path, Parse, Right, FormsAgree, AllTrees, Clean, Sum, SetOf, Bytes;
    r, body := MergeAll(dedupeStrings, false, [COPIED]);
  }

  lemma CopiedAlike(all: bool)
    ensures FormsAgree({COPIED}, false, all)
  {
    CopiedTags();
    forall q: nat
      ensures Looked(COPIED, false, all, q) || NameMet(COPIED, false, q) ==> q == 2
    {
      CopiedPath(q);
      LookedNames(COPIED, false, all);
    }
    hide Scan, Looked, NameMet;
  }

  /** A well-formed document is refused when a COPY stands right behind its string. */
  method CopyTooClose(dedupeStrings: bool) returns (r: Ending)
    ensures !r.Ok?
  {
    AdjoiningTaken();
    hide Takeable, Traceable, Scan, Path, Core, Merger.AtRest, Merger.TextDone, Merger.OneText;
    var mrg := new Merger(dedupeStrings, false);
    NotTraceable(ADJOINING, false);
    assert mrg.Fair(ADJOINING);
    r := mrg.Append(ADJOINING);
  }

  // ----- arrays that are kept flat -----

  /** An array of two numbers, a reference to an array of one, and a number. */
  const PAIR: seq<byte> := [0, 0x42, 1, 2]
  const NESTED: seq<byte> := [0, 40, 43, 1, 3]
  const FIVE: seq<byte> := [0, 32, 5]

  lemma PairTags()
    ensures Scan(PAIR, 1) == Some((Open(64, 2), 2)) && Scan(PAIR, 2) == Some((Leaf(1, []), 3)) && Scan(PAIR, 3) == Some((Leaf(2, []), 4))
    ensures Scan(PAIR, 4) == None
  {
  }

  lemma NestedTags()
    ensures Scan(NESTED, 1) == Some((Open(40, 0), 2)) && Scan(NESTED, 2) == Some((Open(43, 1), 4)) && Scan(NESTED, 4) == Some((Leaf(3, []), 5))
    ensures Scan(NESTED, 5) == None && Read(NESTED, 3) == Some((1, 4))
  {
    assert Read(NESTED, 3) == Some((1, 4));
  }

  lemma FiveTags()
    ensures Scan(FIVE, 1) == Some((Num(32, 5), 3)) && Scan(FIVE, 3) == None
  {
    assert Read(FIVE, 2) == Some((5, 3));
  }

  /** A document of plain tags, at the given places and nowhere else. */
  ghost predicate PlainAt(doc: seq<byte>, ps: set<nat>) {
    && 3 <= |doc| && Parse(doc, 1, [Item]) == Some(|doc|) && (forall q :: Path(doc, 1, q) ==> q in ps)
    && forall q :: q in ps && Scan(doc, q).Some? ==>
      Scan(doc, q).value.0.Leaf? || Scan(doc, q).value.0.Num? || (Scan(doc, q).value.0.Open? && Scan(doc, q).value.0.tag in {40, 43, 64})
  }

  lemma PlainTaken(doc: seq<byte>, ps: set<nat>, all: bool)
    requires PlainAt(doc, ps)
    ensures Takeable(doc, true) && Traceable(doc, true) && Path(doc, 1, |doc|)
    ensures forall q: nat :: !Looked(doc, true, all, q) && !NameMet(doc, true, q)
  {
    ParsePath(doc, 1, [Item]);
    TakeableWhen(doc, true);
    HeaderIs(doc, true);
    forall q | Path(doc, 1, q)
      ensures Scan(doc, q).Some? ==> TagSound(doc, q) && TagTakeable(doc, q) && !TextAt(doc, q)
      ensures !CopyAt(doc, q)
    {
      hide Scan, Path, Parse;
    }
    NoCopies(doc, true);
    hide Scan, Path, Parse, Walk, Header, Takeable, Traceable, TagSound, TagTakeable;
    forall q: nat
      ensures !Looked(doc, true, all, q) && !NameMet(doc, true, q)
    {
      assert Met(doc, true, q) ==> Path(doc, 1, q);
      assert TextAt(doc, q) ==> Scan(doc, q).Some?;
    }
  }

  lemma PairPlain()
    ensures PlainAt(PAIR, {1, 2, 3, 4}) && Chain(PAIR, 2, Items(2)) == Some([2, 3])
  {
    PairTags();
    hide Scan, Path;
    forall q: nat | Path(PAIR, 1, q)
      ensures q in {1, 2, 3, 4}
    {
      PathTo(PAIR, 1, q);
      PathTo(PAIR, 2, q);
      PathTo(PAIR, 3, q);
      PathTo(PAIR, 4, q);
    }
    TwoItems(PAIR, 2, 3, 4);
    ParseItem(PAIR, 1);
    assert Wants(Open(64, 2)) == Items(2);
  }

  /** Two items that are single tags. */
  lemma TwoItems(b: seq<byte>, p: nat, q: nat, e: nat)
    requires Scan(b, p).Some? && Scan(b, p).value.0.Leaf? && Scan(b, p).value.1 == q
    requires Scan(b, q).Some? && Scan(b, q).value.0.Leaf? && Scan(b, q).value.1 == e
    ensures Parse(b, p, Items(2)) == Some(e) && Chain(b, p, Items(2)) == Some([p, q])
  {
    OneItem(b, q, e);
    hide Scan;
    ParseItem(b, p);
    assert Parse(b, q, []) == Some(q) && Items(2) == [Item] + Items(1);
    ChainStep(b, p, q, Item, Items(1));
    assert [p] + [q] == [p, q];
  }

  lemma OneItem(b: seq<byte>, p: nat, e: nat)
    requires Scan(b, p).Some? && Scan(b, p).value.0.Leaf? && Scan(b, p).value.1 == e
    ensures Parse(b, p, [Item]) == Parse(b, p, Items(1)) == Some(e) && Chain(b, p, Items(1)) == Some([p])
  {
    hide Scan;
    ParseItem(b, p);
    assert Parse(b, e, []) == Some(e) && Items(1) == [Item] + [] && Chain(b, e, []) == Some([]);
    ChainStep(b, p, e, Item, []);
    assert [p] + [] == [p] && [Item] + [] == [Item];
  }

  lemma NestedPlain()
    ensures PlainAt(NESTED, {1, 2, 4, 5}) && Chain(NESTED, 4, Items(1)) == Some([4])
  {
    NestedTags();
    hide Scan, Path;
    forall q: nat | Path(NESTED, 1, q)
      ensures q in {1, 2, 4, 5}
    {
      PathTo(NESTED, 1, q);
      PathTo(NESTED, 2, q);
      PathTo(NESTED, 4, q);
      PathTo(NESTED, 5, q);
    }
    OneItem(NESTED, 4, 5);
    ParseItem(NESTED, 1);
    ParseItem(NESTED, 2);
    assert Wants(Open(43, 1)) == Items(1) && Wants(Open(40, 0)) == [Item];
  }

  lemma FivePlain()
    ensures PlainAt(FIVE, {1, 3})
  {
    FiveTags();
    hide Scan, Path;
    forall q: nat | Path(FIVE, 1, q)
      ensures q in {1, 3}
    {
      PathTo(FIVE, 1, q);
      PathTo(FIVE, 3, q);
    }
    ParseItem(FIVE, 1);
    assert Wants(Num(32, 5)) == [] && Parse(FIVE, 3, []) == Some(3);
  }

  /** What is asked for of each. */
  lemma PairPiece()
    ensures PieceOf(PAIR, true) == Piece(PAIR, 2, 2)
    ensures PartTrees(Piece(PAIR, 2, 2), 1) == [Tree(Leaf(1, []), []), Tree(Leaf(2, []), [])]
  {
    hide Scan, Read, Parse, Path, Walk, Header, Meaning, Chain;
    PairPlain();
    PairTags();
    HeaderIs(PAIR, true);
    MeansItself(PAIR, 2, 0);
    MeansItself(PAIR, 3, 0);
  }

  lemma NestedPiece()
    ensures PieceOf(NESTED, true) == Piece(NESTED, 4, 1)
    ensures PartTrees(Piece(NESTED, 4, 1), 1) == [Tree(Leaf(3, []), [])]
  {
    hide Scan, Read, Parse, Path, Walk, Header, Meaning, Chain;
    NestedPlain();
    NestedTags();
    HeaderIs(NESTED, true);
    MeansItself(NESTED, 4, 0);
  }

  lemma FivePiece()
    ensures PieceOf(FIVE, true) == Piece(FIVE, 1, 1)
    ensures PartTrees(Piece(FIVE, 1, 1), 1) == [Tree(Num(32, 5), [])]
  {
    hide Scan, Read, Parse, Path, Walk, Header, Meaning, Chain, PartTrees;
    FivePlain();
    FiveTags();
    HeaderIs(FIVE, true);
    MeansItself(FIVE, 1, 0);
    WholeTrees(FIVE, 1);
  }

  lemma ThreePieces(c: seq<byte>, d: seq<byte>, e: seq<byte>)
    ensures PiecesOf([c, d, e], true) == [PieceOf(c, true), PieceOf(d, true), PieceOf(e, true)]
    ensures SetOf([c, d, e]) == {c, d, e}
  {
    hide PieceOf;
    assert [c, d, e][0] == c && [c, d, e][1] == d && [c, d, e][2] == e;
  }

  lemma ThreeBytes(c: seq<byte>, d: seq<byte>, e: seq<byte>)
    ensures Bytes([c, d, e]) == |c| + |d| + |e|
  {
    var docs := [c, d, e];
    assert docs[..2] == [c, d] && [c, d][..1] == [c] && [c][..0] == [];
    assert Bytes([]) == 0;
    assert Bytes([c]) == |c|;
    assert Bytes([c, d]) == |c| + |d|;
  }

  lemma ThreeSum(p: Piece, q: Piece, r: Piece)
    ensures Sum([p, q, r]) == p.n + q.n + r.n
  {
    var ps := [p, q, r];
    assert ps[..2] == [p, q] && [p, q][..1] == [p] && [p][..0] == [];
    assert Sum([]) == 0;
    assert Sum([p]) == p.n;
    assert Sum([p, q]) == p.n + q.n;
  }

  lemma ThreeTrees(p: Piece, q: Piece, r: Piece)
    ensures AllTrees([p, q, r], 1) == PartTrees(p, 1) + PartTrees(q, 1) + PartTrees(r, 1)
  {
    hide PartTrees;
    var ps := [p, q, r];
    assert TreesOf(ps, 0, 1) == [];
    assert TreesOf(ps, 1, 1) == PartTrees(p, 1);
    assert TreesOf(ps, 2, 1) == PartTrees(p, 1) + PartTrees(q, 1);
  }

  const FLAT: seq<seq<byte>> := [PAIR, NESTED, FIVE]

  lemma PlainDocs(docs: seq<seq<byte>>, ps: seq<set<nat>>, all: bool)
    requires |docs| == |ps| && forall k :: 0 <= k < |docs| ==> PlainAt(docs[k], ps[k])
    ensures AllTakeable(docs, true) && AllTraceable(docs, true) && AllTags(docs) && AllItems(docs)
    ensures FormsAgree(SetOf(docs), true, all) && forall k :: 0 <= k < |docs| ==> 1 <= |docs[k]|
  {
    hide Takeable, Traceable, Scan, Path, Parse, Looked, NameMet;
    forall k | 0 <= k < |docs|
      ensures Takeable(docs[k], true) && Traceable(docs[k], true) && Path(docs[k], 1, |docs[k]|) && Parse(docs[k], 1, [Item]).Some?
      ensures forall q: nat :: !Looked(docs[k], true, all, q) && !NameMet(docs[k], true, q)
    {
      PlainTaken(docs[k], ps[k], all);
    }
  }

  lemma FlatTaken(all: bool)
    ensures AllTakeable(FLAT, true) && AllTraceable(FLAT, true) && AllTags(FLAT) && AllItems(FLAT)
    ensures FormsAgree(SetOf(FLAT), true, all) && forall k :: 0 <= k < |FLAT| ==> 1 <= |FLAT[k]|
  {
    PairPlain();
    NestedPlain();
    FivePlain();
    hide AllTakeable, AllTraceable, AllTags, AllItems, FormsAgree, SetOf, PlainAt, PAIR, NESTED, FIVE, Chain, Items;
    PlainDocs([PAIR, NESTED, FIVE], [{1, 2, 3, 4}, {1, 2, 4, 5}, {1, 3}], all);
  }

  lemma FlatMeans()
    ensures Sum(PiecesOf(FLAT, true)) == 4 && Bytes(FLAT) == 12
    ensures AllTrees(PiecesOf(FLAT, true), 1) == [Tree(Leaf(1, []), []), Tree(Leaf(2, []), []), Tree(Leaf(3, []), []), Tree(Num(32, 5), [])]
  {
    PairPiece();
    NestedPiece();
    FivePiece();
    ThreePieces(PAIR, NESTED, FIVE);
    ThreeBytes(PAIR, NESTED, FIVE);
    ThreeSum(Piece(PAIR, 2, 2), Piece(NESTED, 4, 1), Piece(FIVE, 1, 1));
    ThreeTrees(Piece(PAIR, 2, 2), Piece(NESTED, 4, 1), Piece(FIVE, 1, 1));
    hide AllTrees, Sum, Bytes, PieceOf, PartTrees, PiecesOf;
  }

  /** The elements of the arrays, and the number, become the elements of one array. */
  method FlatRun(dedupeStrings: bool) returns (r: Ending, body: seq<byte>)
    ensures r.Ok? && Parse(body, 1, [Item]) == Some(|body|)
    ensures Meaning(body, 1, 3) == Tree(Open(40, 0), [Tree(Open(43, 4), [
      Tree(Leaf(1, []), []), Tree(Leaf(2, []), []), Tree(Leaf(3, []), []), Tree(Num(32, 5), [])])])
  {
    hide Takeable, Traceable, Scan, Path, Parse, AllTrees, Clean, Sum, SetOf, Bytes, PieceOf, PartTrees, Looked, NameMet, Meaning,
      AllTakeable, AllTraceable, AllTags, AllItems, FormsAgree, PiecesOf, PAIR, NESTED, FIVE;
    FlatTaken(dedupeStrings);
    FlatMeans();
    r, body := MergeAll(dedupeStrings, true, FLAT);
    assert Meaning(body, 1, 1 + 2) == ArrayOf(AllTrees(PiecesOf(FLAT, true), 1));
  }

  /** What was looked up before the second pass stopped is in the table. */
  lemma Stays(doc: seq<byte>, q: nat, x: nat, s: seq<byte>, str: set<seq<byte>>, obj: set<seq<byte>>)
    requires Given(doc, false, true, q, {}, {}, str, obj) && x < q && Looked(doc, false, true, x) && Scan(doc, x).value.0.content == s
    ensures s in str
  {
    hide Looked, Scan;
    assert Said(doc, false, true, q, s);
  }

  lemma WordTags()
    ensures Scan(WORD_AB, 1) == Some((Text(false, [97, 98]), 4)) && |WORD_AB| == 4
    ensures Meaning(WORD_AB, 1, 1) == Tree(Text(false, [97, 98]), [])
  {
    assert WORD_AB[2..4] == [97, 98];
    hide Scan, Meaning;
    MeansItself(WORD_AB, 1, 0);
  }

  /** The body of one COPY of a place behind it. */
  function Dangling(v: nat): seq<byte> {
    [0, REFN, ARRAY, 1, PAD, PAD, PAD, PAD] + ([COPY] + Write(v))
  }

  lemma DanglingTags(v: nat)
    requires FIRST <= v < WORD
    ensures Scan(Dangling(v), 1) == Some((Open(REFN, 0), 2)) && Scan(Dangling(v), 2) == Some((Open(ARRAY, 1), 4))
    ensures Scan(Dangling(v), 8) == Some((Copy(v), |Dangling(v)|))
    ensures forall i :: 4 <= i < 8 ==> Dangling(v)[i] == PAD
  {
    var b := Dangling(v);
    var front: seq<byte> := [0, REFN, ARRAY, 1, PAD, PAD, PAD, PAD];
    assert b == front + [COPY] + Write(v);
    CopyScan(front, b, COPY, v);
    OpenScan(b, 1);
    OpenScan(b, 2);
    assert Read(b, 3) == Some((1, 4));
  }

  lemma DanglingMeaning(v: nat)
    requires FIRST <= v < WORD
    ensures Meaning(Dangling(v), 1, 3) != ArrayOf([Tree(Text(false, [97, 98]), [])])
  {
    var b := Dangling(v);
    DanglingTags(v);
    PadsUnseen(b, 4);
    assert Resolve(b, 8) == None;
    assert Meaning(b, 4, 1) == Bad;
    assert Wants(Open(REFN, 0)) == [Item] && Wants(Open(ARRAY, 1)) == [Item];
    FirstChild(b, 1, Open(REFN, 0), 2, 2);
    FirstChild(b, 2, Open(ARRAY, 1), 4, 1);
    hide Scan, Parse, Dangling, Resolve, Meaning, Wants;
  }

  /** The first of the children begins behind the tag. */
  lemma FirstChild(b: seq<byte>, p: nat, t: Token, q: nat, d: nat)
    requires Scan(b, p) == Some((t, q)) && t.Open? && Wants(t) == [Item]
    ensures var m := Meaning(b, p, d + 1); m == Bad || (m.Tree? && |m.kids| == 1 && m.kids[0] == Meaning(b, q, d))
  {
    hide Scan, Parse, Meaning;
    assert Resolve(b, p) == Some(p);
    if Head(b, p).Some? {
      MeaningStep(b, p, d + 1);
    } else {
      NoHead(b, p, d);
    }
  }

  lemma NoHead(b: seq<byte>, p: nat, d: nat)
    requires Resolve(b, p).Some? && Head(b, Resolve(b, p).value).None?
    ensures Meaning(b, p, d + 1) == Bad
  {
  }

  lemma NotThere(v: nat)
    requires FIRST <= v < WORD
    ensures !Right(Dangling(v), [Piece(WORD_AB, 1, 1)], 1)
  {
    WordTags();
    DanglingMeaning(v);
    hide Scan, Meaning, Dangling, Parse;
    assert 1 + 2 == 3;
    WordTrees();
  }

  lemma WordTrees()
    ensures AllTrees([Piece(WORD_AB, 1, 1)], 1) == [Meaning(WORD_AB, 1, 1)]
  {
    WordTags();
    hide Scan, Meaning;
    ParseItem(WORD_AB, 1);
    var p := Piece(WORD_AB, 1, 1);
    assert Items(1) == [Item] + [];
    ChainStep(WORD_AB, 1, 4, Item, []);
    assert Chain(WORD_AB, 4, []) == Some([]);
    assert PartTrees(p, 1) == [Meaning(WORD_AB, 1, 1)];
    assert TreesOf([p], 0, 1) == [];
  }

  /** A well-formed document is refused when a COPY names a class name; and what was looked up before stays
      in the table, where it names a place behind the output. */
  method ClassNameCopied(mrg: Merger) returns (r: Ending)
    requires mrg.Fair(NAMED) && mrg.Resting() && mrg.dedupeStrings && !mrg.keepFlat
    requires mrg.strTable == map[] && mrg.objTable == map[]
    modifies mrg
    ensures !r.Ok? && mrg.mbuf == old(mrg.mbuf) && mrg.length == old(mrg.length) && !mrg.Inside() && mrg.Resting() && !mrg.finished
    ensures [97, 98] in mrg.strTable && |mrg.mbuf| <= mrg.strTable[[97, 98]] < WORD
  {
    hide Takeable, Traceable, Scan, Path, Core, Merger.AtRest, Parse, Looked, FirstBlocked, Write, Finished, Merger.OneText, Given,
      Merger.TextDone, Header;
    NamedTaken();
    NotTraceable(NAMED, false);
    assert mrg.strTable.Keys == {} && mrg.objTable.Keys == {};
    r := mrg.Append(NAMED);
    Stays(NAMED, 9, 6, [97, 98], mrg.strTable.Keys, mrg.objTable.Keys);
    assert [97, 98] in mrg.strTable.Keys;
  }

  /** A string that is appended next becomes a COPY of a place that is not there. */
  method StaleTable() returns (r: Ending, body: seq<byte>)
    ensures r.Ok? && !Right(body, [Piece(WORD_AB, 1, 1)], 1)
  {
    hide Takeable, Traceable, Scan, Path, Core, Merger.AtRest, Parse, Right, Looked, FirstBlocked, Write, Finished, Meaning, Laid,
      FormsAgree, AllParse, AllTrees, Header, Given, Merger.Leaves;
    NamedTaken();
    var mrg := new Merger(true, false);
    r := ClassNameCopied(mrg);
    ghost var v := mrg.strTable[[97, 98]];
    WordTags();
    WordHeader();
    r := mrg.Append(WORD_AB);
    assert mrg.mbuf == PRELUDE + ([COPY] + Write(v));
    FinishedDangling(mrg.mbuf, v);
    r, body := mrg.Finish();
    NotThere(v);
  }

  lemma WordHeader()
    ensures Header(WORD_AB, false) == Some((1, 1))
  {
  }

  lemma FinishedDangling(b: seq<byte>, v: nat)
    requires b == PRELUDE + ([COPY] + Write(v))
    ensures |Write(1)| == 1 && COUNT_AT + 1 <= |b| && Finished(b, 1) == Dangling(v)
  {
    assert Write(1) == [1];
    assert b[..3] == [0, REFN, ARRAY];
    assert b[4..] == [PAD, PAD, PAD, PAD] + ([COPY] + Write(v));
  }
}
