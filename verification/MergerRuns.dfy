/** Runs of the Perl merger on concrete documents: one that reads in front of an arena, one whose output is
    not what was merged, and one of a floating point number, every byte of it in figures. */
module MergerRuns {
  import opened Varint
  import opened Wire
  import opened Mapping
  import opened QuickSort
  import opened MergerState
  import opened MergerResult
  import opened StrTable
  import opened Merger
  import opened Tags
  import opened Depth

  // ----- a class name that is a COPY -----

  /** An array of a string and of an object whose class name is a COPY of it. */
  const BORROWED: seq<byte> := [0, ARRAYREF + 2, SHORT_BINARY + 1, 65, OBJECT, COPY, 2, 1]

  lemma BorrowedTags()
    ensures Scan(BORROWED, 1) == Some((Open(ARRAYREF, 2), 2)) && Scan(BORROWED, 2) == Some((Text(false, [65]), 4))
    ensures Scan(BORROWED, 4) == Some((Open(OBJECT, 0), 5)) && Scan(BORROWED, 5) == Some((Copy(2), 7))
    ensures Scan(BORROWED, 7) == Some((Leaf(1, []), 8)) && Scan(BORROWED, 8) == None
  {
    assert BORROWED[3..4] == [65];
    assert Read(BORROWED, 6) == Some((2, 7));
  }

  lemma BorrowedPath(q: nat)
    ensures Path(BORROWED, 1, q) <==> q in {1, 2, 4, 5, 7, 8}
  {
    BorrowedTags();
    hide Scan, Path;
    PathTo(BORROWED, 1, q);
    PathTo(BORROWED, 2, q);
    PathTo(BORROWED, 4, q);
    PathTo(BORROWED, 5, q);
    PathTo(BORROWED, 7, q);
    PathTo(BORROWED, 8, q);
  }

  lemma BorrowedParse()
    ensures Parse(BORROWED, 1, [Item]) == Some(8)
  {
    BorrowedTags();
    hide Scan, Path;
    ParseItem(BORROWED, 1);
    assert Parse(BORROWED, 8, Items(0)) == Some(8);
    Rest(BORROWED, 2, 4, 1);
    Rest(BORROWED, 7, 8, 0);
    assert Items(1) == [Item];
    ParseObject(BORROWED, 4);
  }

  lemma BorrowedEasy(maxDepth: nat)
    requires 2 < maxDepth
    ensures Easy(BORROWED, maxDepth) && !NamesSpelled(BORROWED)
  {
    BorrowedTags();
    BorrowedParse();
    BorrowedPath(8);
    BorrowedPath(4);
    hide Scan, Path, Parse, BorrowedAt;
    forall q | Path(BORROWED, 1, q) && Scan(BORROWED, q).Some?
      ensures TagSound(BORROWED, q)
    {
      BorrowedPath(q);
      BorrowedPath(2);
    }
    PathSkips(BORROWED);
    BorrowedDepth(maxDepth);
  }

  lemma BorrowedDepth(maxDepth: nat)
    requires 2 < maxDepth
    ensures Shallow(BORROWED, maxDepth)
  {
    BorrowedTags();
    BorrowedParse();
    ParseItem(BORROWED, 2);
    ParseItem(BORROWED, 7);
    ParseObject(BORROWED, 4);
    ParseKey(BORROWED, 5);
    assert Encloses(BORROWED, 1) && Encloses(BORROWED, 4);
    hide Scan, InDepth, Leaks, Encloses;
    DepthOpen(BORROWED, 1, 2, 0, maxDepth);
    DepthSplit(BORROWED, 2, [Item], 4, 8, 1, maxDepth);
    DepthSingle(BORROWED, 2, 4, 1, maxDepth);
    DepthOpen(BORROWED, 4, 5, 1, maxDepth);
    DepthKey(BORROWED, 5, 7, 8, 2, maxDepth);
    DepthSingle(BORROWED, 7, 8, 2, maxDepth);
  }

  /** The document is merged, but the result does not mean the array that holds it. */
  method BorrowedRun(dedupe: bool, maxDepth: nat, hash: seq<byte> -> nat) returns (body: seq<byte>)
    requires 2 < maxDepth
    ensures Parse(BORROWED, 1, [Item]) == Some(|BORROWED|) && !MeansAll(body, [BORROWED])
  {
    hide Scan, Path, Parse, Easy, NamesSpelled, MeansAll, Mergeable;
    BorrowedParse();
    BorrowedEasy(maxDepth);
    EasyMergeable(BORROWED, maxDepth);
    var ops := [One(BORROWED)];
    var ok, ns: seq<nat>;
    ghost var rolls;
    assert Given(ops[0]) == [BORROWED];
    OneDoc(BORROWED, maxDepth);
    assert BytesOf(ops, 1) == BytesOf(ops, 0) + Bytes(Given(ops[0]));
    ok, body, ns, rolls := Session(dedupe, maxDepth, hash, ops);
    OneMerged(ops, ns, rolls, ok);
  }

  lemma EasyMergeable(doc: seq<byte>, maxDepth: nat)
    requires Easy(doc, maxDepth)
    ensures Mergeable(doc)
  {
    hide Scan, Path, Parse, Sound, Shallow, Skips;
  }

  lemma OneMerged(ops: seq<Op>, ns: seq<nat>, rolls: seq<Occupancy>, ok: bool)
    requires |ops| == 1 && |Given(ops[0])| == 1 && |ns| <= 1 && (ok <==> |ns| == 1)
    requires ok <==> forall k :: 0 <= k < |rolls| ==> Clear(rolls[k])
    requires (forall k :: 0 <= k < |ns| ==> ns[k] == |Given(ops[k])|) ==> rolls == []
    requires forall k :: 0 <= k < |ns| ==> 1 <= ns[k] <= |Given(ops[k])|
    ensures ok && ns == [1] && Merged(ops, ns) == Given(ops[0])
  {
    hide Clear, Given;
    assert rolls == [];
    assert Merged(ops, ns[..0]) == [];
    assert Given(ops[0])[..1] == Given(ops[0]);
  }

  // ----- nothing at all -----

  /** The body of an empty array, with room for a larger count. */
  method EmptyRun(dedupe: bool, maxDepth: nat, hash: seq<byte> -> nat) returns (body: seq<byte>)
    ensures body == [0, 40, 43, 0, 63, 63, 63, 63]
  {
    hide Merger.Consistent, Laid, Right, AllSpelled, AllTrees, Clean;
    var mrg := new Merger(dedupe, maxDepth, hash);
    body := mrg.Finish();
  }

  // ----- a floating point number -----

  /** An array of the number 1.5, of double precision. */
  const DOUBLED: seq<byte> := [0, 0x41, 0x23, 0, 0, 0, 0, 0, 0, 0xF8, 0x3F]

  lemma DoubledTags()
    ensures Scan(DOUBLED, 1) == Some((Open(64, 1), 2)) && Scan(DOUBLED, 11) == None
    ensures Scan(DOUBLED, 2) == Some((Leaf(35, [0, 0, 0, 0, 0, 0, 0xF8, 0x3F]), 11))
  {
    ReadsOther(DOUBLED, 1);
    ReadsValue(DOUBLED, 2);
    assert DOUBLED[3..11] == [0, 0, 0, 0, 0, 0, 0xF8, 0x3F];
    assert Scan(DOUBLED, 11) == None;
    hide Scan, Read;
  }

  lemma DoubledParse()
    ensures Parse(DOUBLED, 1, [Item]) == Some(11)
    ensures Chain(DOUBLED, 2, [Item]) == Some([2])
  {
    DoubledTags();
    Follows(1, 0, 0);
    FollowsNothing(35, [0, 0, 0, 0, 0, 0, 0xF8, 0x3F], 0, false);
    hide Scan, Read, Wants;
    ParseItem(DOUBLED, 1);
    ParseItem(DOUBLED, 2);
    assert Wants(Open(64, 1)) == [Item] && [Item][1..] == [];
    ChainStep(DOUBLED, 2, 11, Item, []);
    assert [Item] + [] == [Item] && Chain(DOUBLED, 11, []) == Some([]) && [2] + [] == [2];
  }

  lemma DoubledMeaning(d: nat)
    ensures Meaning(DOUBLED, 1, d + 2) == Tree(Open(64, 1), [Tree(Leaf(35, [0, 0, 0, 0, 0, 0, 0xF8, 0x3F]), [])])
  {
    DoubledTags();
    DoubledParse();
    Follows(1, 0, 0);
    MeansItself(DOUBLED, 2, d);
    MeansHolder(DOUBLED, 1, d + 1);
    hide Scan, Parse, Meaning, Wants, Chain;
    assert Wants(Open(64, 1)) == [Item];
    assert Meanings(DOUBLED, [2], d + 1) == [Meaning(DOUBLED, 2, d + 1)];
  }

  lemma DoubledEasy(maxDepth: nat)
    requires 1 < maxDepth
    ensures Easy(DOUBLED, maxDepth) && NamesSpelled(DOUBLED)
  {
    DoubledTags();
    DoubledParse();
    Follows(1, 0, 0);
    FollowsNothing(35, [0, 0, 0, 0, 0, 0, 0xF8, 0x3F], 0, false);
    hide Scan, Path, Parse, BorrowedAt, Wants, Chain;
    forall q
      ensures Path(DOUBLED, 1, q) <==> q in {1, 2, 11}
    {
      PathTo(DOUBLED, 1, q);
      PathTo(DOUBLED, 2, q);
      PathTo(DOUBLED, 11, q);
    }
    PathSkips(DOUBLED);
    DoubledDepth(maxDepth);
  }

  lemma DoubledDepth(maxDepth: nat)
    requires 1 < maxDepth
    ensures Shallow(DOUBLED, maxDepth)
  {
    DoubledTags();
    DoubledParse();
    FollowsNothing(35, [0, 0, 0, 0, 0, 0, 0xF8, 0x3F], 0, false);
    hide Scan, InDepth, Leaks, Wants;
    DepthOpen(DOUBLED, 1, 2, 0, maxDepth);
    DepthSingle(DOUBLED, 2, 11, 1, maxDepth);
  }

  /** The finished body means the array of it, with all its eight bytes. */
  method DoubleRun(dedupe: bool, maxDepth: nat, hash: seq<byte> -> nat) returns (body: seq<byte>)
    requires 1 < maxDepth
    ensures Parse(body, 1, [Item]) == Some(|body|)
    ensures Meaning(body, 1, 4) ==
      Tree(Open(40, 0), [Tree(Open(43, 1), [Tree(Open(64, 1), [Tree(Leaf(35, [0, 0, 0, 0, 0, 0, 0xF8, 0x3F]), [])])])])
  {
    hide Scan, Path, Parse, Easy, NamesSpelled, Meaning, Mergeable;
    DoubledMeaning(0);
    DoubledEasy(maxDepth);
    EasyMergeable(DOUBLED, maxDepth);
    var ops := [One(DOUBLED)];
    var ok, ns: seq<nat>;
    ghost var rolls;
    assert Given(ops[0]) == [DOUBLED];
    OneDoc(DOUBLED, maxDepth);
    assert BytesOf(ops, 1) == BytesOf(ops, 0) + Bytes(Given(ops[0]));
    ok, body, ns, rolls := Session(dedupe, maxDepth, hash, ops);
    OneMerged(ops, ns, rolls, ok);
    assert DocTrees([DOUBLED], 2) == [Meaning(DOUBLED, 1, 2)];
  }

  // ----- levels that are not given back -----

  /** An array of one reference to a number, and of two. */
  const ONE_REF: seq<byte> := [0, 0x41, 40, 1]
  const TWO_REFS: seq<byte> := [0, 0x42, 40, 1, 40, 1]

  lemma RefsTags(b: seq<byte>)
    requires b == ONE_REF || b == TWO_REFS
    ensures Scan(b, 1) == Some((Open(64, if b == ONE_REF then 1 else 2), 2)) && Scan(b, 2) == Some((Open(40, 0), 3))
    ensures Scan(b, 3) == Some((Leaf(1, []), 4))
    ensures if b == ONE_REF then Scan(b, 4) == None else Scan(b, 4) == Some((Open(40, 0), 5)) && Scan(b, 5) == Some((Leaf(1, []), 6)) && Scan(b, 6) == None
  {
  }

  /** A reference to a number. */
  lemma RefParse(b: seq<byte>, p: nat)
    requires RefAt(b, p)
    ensures Parse(b, p, [Item]) == Parse(b, p + 1, [Item]) == Some(p + 2)
  {
    hide Scan;
    ParseItem(b, p);
    ParseItem(b, p + 1);
    assert Wants(Leaf(1, [])) == [] && Wants(Open(40, 0)) == [Item];
    assert Parse(b, p + 2, []) == Some(p + 2);
  }

  /** The array, by its tags alone. */
  ghost predicate RefsIn(b: seq<byte>, n: nat) {
    && n in {1, 2} && Scan(b, 1) == Some((Open(64, n), 2)) && Encloses(b, 1) && RefAt(b, 2) && (n == 2 ==> RefAt(b, 4))
  }

  ghost predicate RefAt(b: seq<byte>, p: nat) {
    && Scan(b, p) == Some((Open(40, 0), p + 1)) && Scan(b, p + 1) == Some((Leaf(1, []), p + 2))
    && p < |b| && b[p] == 40
  }

  lemma RefsThere()
    ensures RefsIn(ONE_REF, 1) && RefsIn(TWO_REFS, 2)
  {
    RefsTags(ONE_REF);
    RefsTags(TWO_REFS);
    hide Scan;
  }

  lemma RefsParse(b: seq<byte>, n: nat)
    requires RefsIn(b, n)
    ensures Parse(b, 1, [Item]) == Some(2 + 2 * n) && Parse(b, 2, [Item]) == Some(4)
  {
    RefParse(b, 2);
    ParseItem(b, 1);
    hide Scan, Parse, Wants;
    RefsWants();
    if n == 2 {
      RefParse(b, 4);
      ParseSplit(b, 2, [Item], [Item]);
    }
  }

  lemma RefsWants()
    ensures Wants(Open(64, 1)) == [Item] && Wants(Open(64, 2)) == [Item] + [Item]
  {
  }

  lemma RefsSound(b: seq<byte>)
    requires b == ONE_REF || b == TWO_REFS
    ensures Mergeable(b) && Passing(b)
  {
    RefsTags(b);
    hide Scan, Path, BorrowedAt;
    forall q: nat
      ensures Path(b, 1, q) <==> 1 <= q <= |b|
    {
      PathTo(b, 1, q);
      PathTo(b, 2, q);
      PathTo(b, 3, q);
      PathTo(b, 4, q);
      PathTo(b, 5, q);
      PathTo(b, 6, q);
    }
    PathSkips(b);
  }

  lemma RefDepth(b: seq<byte>, p: nat, d: nat)
    requires RefAt(b, p)
    ensures InDepth(b, p, p + 2, d, 3) <==> d < 2
    ensures Leaks(b, p, p + 2) == 1
  {
    RefParse(b, p);
    assert Wants(Leaf(1, [])) == [];
    hide Scan, InDepth, Leaks, Parse, Wants;
    DepthFront(b, p, p + 1, d, 3);
    DepthSingle(b, p + 1, p + 2, d + 1, 3);
  }

  /** With two references the second is counted deeper than the first. */
  lemma RefsDepth(b: seq<byte>, n: nat)
    requires RefsIn(b, n)
    ensures Shallow(b, 3) <==> n == 1
  {
    RefsParse(b, n);
    hide Scan, InDepth, Leaks, Encloses, Parse, Wants;
    DepthOpen(b, 1, 2, 0, 3);
    RefDepth(b, 2, 1);
    if n == 2 {
      DepthSplit(b, 2, [Item], 4, 6, 1, 3);
      RefDepth(b, 4, 2);
    }
  }

  /** With a limit of three levels an array of one reference is merged, and an array of two is refused, though
      it nests no deeper. */
  method LeakRun(dedupe: bool, hash: seq<byte> -> nat) returns (one: Outcome, two: Outcome)
    ensures one.Ok? && two.TooDeep?
  {
    hide Easy, Mergeable, Passing, Parse, Shallow, Merger.Consistent, Clear, FloorAfter, RefsIn;
    RefsThere();
    RefsDepth(ONE_REF, 1);
    RefsDepth(TWO_REFS, 2);
    RefsParse(ONE_REF, 1);
    RefsParse(TWO_REFS, 2);
    RefsSound(ONE_REF);
    RefsSound(TWO_REFS);
    RefsEasy();
    var mrg := new Merger(dedupe, 3, hash);
    one := mrg.Append(ONE_REF);
    two := mrg.Append(TWO_REFS);
  }

  lemma RefsEasy()
    requires Shallow(ONE_REF, 3) && Mergeable(ONE_REF) && Passing(ONE_REF) && Parse(ONE_REF, 1, [Item]).Some?
    requires !Shallow(TWO_REFS, 3)
    ensures Easy(ONE_REF, 3) && !Easy(TWO_REFS, 3)
  {
    hide Shallow, Mergeable, Passing, Parse;
  }

  // ----- an empty arena -----

  /** A class name of three bytes, tag and all; there are as many as pairs of bytes. */
  function Name(k: nat): seq<byte>
    requires k <= ARENA
  {
    [SHORT_BINARY + 3, k / 256, k % 256, 0]
  }

  /** A hash that tells them apart. */
  function NameHash(s: seq<byte>): nat {
    if |s| != 4 then 0 else var high: nat, low: nat := s[1], s[2]; high * 256 + low
  }

  /** An object of that class whose value is a small integer; and the same cut short before the value. */
  function Object(k: nat): seq<byte>
    requires k <= ARENA
  {
    [0, OBJECT] + Name(k) + [1]
  }

  function CutShort(k: nat): seq<byte>
    requires k <= ARENA
  {
    [0, OBJECT] + Name(k)
  }

  const NUMBER: seq<byte> := [0, 1]

  lemma NameTags(b: seq<byte>, k: nat)
    requires k <= ARENA && (b == Object(k) || b == CutShort(k))
    ensures Scan(b, 1) == Some((Open(OBJECT, 0), 2)) && Scan(b, 2) == Some((Text(false, Name(k)[1..]), 6)) && b[2..6] == Name(k)
    ensures if b == Object(k) then Scan(b, 6) == Some((Leaf(1, []), 7)) && Scan(b, 7) == None else Scan(b, 6) == None
  {
    assert b[3..6] == Name(k)[1..];
  }

  lemma NamePath(b: seq<byte>, k: nat, q: nat)
    requires k <= ARENA && (b == Object(k) || b == CutShort(k))
    ensures Path(b, 1, q) <==> q in {1, 2, 6} || (b == Object(k) && q == 7)
  {
    NameTags(b, k);
    hide Scan, Path, Object, CutShort, Name;
    PathTo(b, 1, q);
    PathTo(b, 2, q);
    PathTo(b, 6, q);
    PathTo(b, 7, q);
  }

  lemma NameMergeable(b: seq<byte>, k: nat)
    requires k <= ARENA && (b == Object(k) || b == CutShort(k))
    ensures Mergeable(b) && Passing(b) && 1 <= |b| <= 7
  {
    NameTags(b, k);
    NamePath(b, k, |b|);
    hide Scan, Path, BorrowedAt;
    forall q | Path(b, 1, q) && Scan(b, q).Some?
      ensures TagSound(b, q)
    {
      NamePath(b, k, q);
    }
    PathSkips(b);
  }

  lemma NameParse(b: seq<byte>, k: nat)
    requires k <= ARENA && (b == Object(k) || b == CutShort(k))
    ensures b == Object(k) ==> Parse(b, 1, [Item]) == Some(7)
    ensures b == CutShort(k) ==> Parse(b, 1, [Item]) == None
  {
    NameTags(b, k);
    hide Scan, Object, CutShort, Name;
    ParseObject(b, 1);
    ParseItem(b, 6);
    assert Wants(Leaf(1, [])) == [];
  }

  lemma NameDepth(k: nat, maxDepth: nat)
    requires k <= ARENA && 1 < maxDepth
    ensures Shallow(Object(k), maxDepth)
  {
    var b := Object(k);
    NameTags(b, k);
    NameParse(b, k);
    ParseObject(b, 1);
    ParseKey(b, 2);
    assert Encloses(b, 1);
    hide Scan, Object, Name, InDepth, Leaks, Encloses;
    DepthOpen(b, 1, 2, 0, maxDepth);
    DepthKey(b, 2, 6, 7, 1, maxDepth);
    DepthSingle(b, 6, 7, 1, maxDepth);
  }

  lemma ObjectEasy(k: nat, maxDepth: nat)
    requires k <= ARENA && 1 < maxDepth
    ensures Easy(Object(k), maxDepth)
  {
    hide Sound, Path, Parse, Skips, Shallow;
    NameMergeable(Object(k), k);
    NameParse(Object(k), k);
    NameDepth(k, maxDepth);
  }

  /** Neither anything nor a number adds to the tables. */
  lemma SmallDocs(maxDepth: nat)
    requires 0 < maxDepth
    ensures Easy(NUMBER, maxDepth) && Mergeable(NUMBER) && Passing(NUMBER) && Mergeable(NOTHING) && Passing(NOTHING) && Parse(NOTHING, 1, [Item]) == None
  {
    assert Scan(NUMBER, 1) == Some((Leaf(1, []), 2)) && Scan(NUMBER, 2) == None && Scan(NOTHING, 1) == None;
    hide Scan, BorrowedAt;
    forall q
      ensures Path(NUMBER, 1, q) <==> q == 1 || q == 2
      ensures Path(NOTHING, 1, q) <==> q == 1
    {
      PathTo(NUMBER, 1, q);
      PathTo(NUMBER, 2, q);
      PathTo(NOTHING, 1, q);
    }
    hide Path;
    ParseItem(NUMBER, 1);
    assert Wants(Leaf(1, [])) == [];
    PathSkips(NUMBER);
    PathSkips(NOTHING);
    DepthSingle(NUMBER, 1, 2, 0, maxDepth);
  }

  /** The class names recorded so far are the first k. */
  ghost predicate Named(mrg: Merger, k: nat)
    reads mrg
  {
    && mrg.Consistent() && mrg.honest && mrg.lastGood == 0 && mrg.hash == NameHash && mrg.dedupe && 1 < mrg.maxDepth
    && mrg.strings == [] && mrg.classFloor == 0 && |mrg.classes| == k
    && (forall e :: e in mrg.classes ==> e.hash < k)
    && mrg.Base() <= FIRST + GROWTH * 7 * k
  }

  lemma NameNew(mrg: Merger, b: seq<byte>, k: nat)
    requires k <= ARENA && (b == Object(k) || b == CutShort(k)) && mrg.input == b && mrg.hash == NameHash && mrg.dedupe
    ensures mrg.NamedAt(1) && mrg.Plainly(1) && mrg.input[2..Scan(mrg.input, 2).value.1] == Name(k) && mrg.Eligible(Name(k))
    ensures NameHash(Name(k)) == k && !mrg.Bare(1)
  {
    NameTags(b, k);
    hide Scan;
    assert k == k / 256 * 256 + k % 256;
  }

  /** One more object. */
  method MergeObject(mrg: Merger, k: nat)
    requires k < ARENA && Named(mrg, k)
    modifies mrg
    ensures Named(mrg, k + 1)
  {
    hide Easy, Mergeable, Passing, Parse, Shallow, Object, Name, Merger.Consistent, Scan, Clear, FloorAfter;
    NoTables0(mrg);
    ObjectEasy(k, mrg.maxDepth);
    NameMergeable(Object(k), k);
    var r := mrg.Append(Object(k));
    NameNew(mrg, Object(k), k);
  }

  lemma NoTables0(mrg: Merger)
    ensures mrg.lastGood == 0 ==> mrg.Rolled(mrg.strings) == mrg.strings && mrg.Rolled(mrg.classes) == mrg.classes
  {
  }

  /** The document that is cut short records its class name and fails. */
  method MergeCutShort(mrg: Merger)
    requires Named(mrg, ARENA)
    modifies mrg
    ensures mrg.Consistent() && mrg.honest && mrg.strings == [] && mrg.classFloor == 0
    ensures mrg.Base() < FIRST + GROWTH * 7 * ARENA + 1
    ensures mrg.lastGood == old(mrg.Base()) == mrg.Base() && mrg.lastGood != 0
    ensures |mrg.classes| == ARENA + 1 && |Before(mrg.classes, mrg.lastGood)| == ARENA
  {
    hide Easy, Mergeable, Passing, Parse, Shallow, CutShort, Name, Merger.Consistent, Scan, Clear, FloorAfter, Before;
    NoTables0(mrg);
    Below(mrg);
    NameMergeable(CutShort(ARENA), ARENA);
    NameParse(CutShort(ARENA), ARENA);
    ghost var es := mrg.classes;
    var r := mrg.Append(CutShort(ARENA));
    NameNew(mrg, CutShort(ARENA), ARENA);
    OneBehind(es, mrg.classes[ARENA], mrg.lastGood);
  }

  /** What is recorded lies in the output. */
  lemma Below(mrg: Merger)
    requires mrg.Consistent() && mrg.lastGood == 0
    ensures FIRST <= mrg.Base() && forall e :: e in mrg.classes ==> e.offset < mrg.Base()
  {
    hide Core, Singles;
  }

  lemma OneBehind(es: seq<Entry>, e: Entry, cut: nat)
    requires (forall x :: x in es ==> x.offset < cut) && e.offset >= cut
    ensures Before(es + [e], cut) == es
  {
    BeforeIsPrefix(es + [e], |es|, cut);
  }

  /** One arena is filled with class names; a further one is recorded and given up again; a number is merged;
      a document without anything in it fails.  The next append reads in front of the empty arena. */
  method ArenaRun(maxDepth: nat) returns (r: Outcome)
    requires 1 < maxDepth
    ensures r.Underrun?
  {
    hide Easy, Mergeable, Passing, Parse, Shallow, CutShort, Name, Merger.Consistent, Scan, Before;
    var mrg := new Merger(true, maxDepth, NameHash);
    var k := 0;
    while k < ARENA
      invariant 0 <= k <= ARENA && fresh(mrg) && Named(mrg, k)
    {
      MergeObject(mrg, k);
      k := k + 1;
    }
    MergeCutShort(mrg);
    SmallDocs(maxDepth);
    Floors();
    r := mrg.Append(NUMBER);
    assert mrg.Bare(1);
    assert |mrg.classes| == ARENA && mrg.classFloor == 2;
    NoTables0(mrg);
    Below(mrg);
    r := mrg.Append(NOTHING);
    assert mrg.Bare(1);
    r := mrg.Append(NUMBER);
  }

  lemma Floors()
    ensures CanPurge(0, ARENA + 1) && FloorAfter(0, ARENA + 1, ARENA) == 2 && !CanPurge(2, ARENA)
    ensures forall f :: CanPurge(f, 0)
  {
  }
}
