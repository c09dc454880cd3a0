/** What the merger keeps true of its output buffer and of the document in hand. */
module MergerState {
  import opened Varint
  import opened Wire
  import opened Mapping
  import opened QuickSort
  import opened Offsets

  /** A recorded string: the hash and length it was entered with, and where its tag stands in the output. */
  datatype Entry = Entry(hash: nat, len: nat, offset: nat)

  /** How strings are carried over: as they are; or perhaps as a COPY of an equal one; or of one with the
      same bytes, in whatever form. */
  datatype Mode = Verbatim | Shared | Loose

  /** Some of the items of a document: n of them, from position `at` on. */
  datatype Piece = Piece(inp: seq<byte>, at: nat, n: nat)

  /** A part already merged, where it ends, and how its tags were carried over. */
  datatype Doc = Doc(part: Piece, end: nat, m: map<nat, nat>, img: map<nat, nat>)

  /** What has been merged: the output as it stood then, and the documents in it. */
  datatype Ledger = Ledger(body: seq<byte>, docs: seq<Doc>)

  function Inputs(docs: seq<Doc>): (r: seq<Piece>)
    ensures |r| == |docs|
  {
    seq(|docs|, k requires 0 <= k < |docs| => docs[k].part)
  }

  /** The output starts with REFN ARRAY and five bytes of padding, to be overwritten by the count. */
  const PRELUDE: seq<byte> := [0, REFN, ARRAY, PAD, PAD, PAD, PAD, PAD]
  const FIRST := 8

  /** No tag of the input grows by more than this factor. */
  const GROWTH := 11

  function At(m: map<nat, nat>, x: nat): nat { if x in m then m[x] else 0 }

  /** Where the k-th merged document begins in the output. */
  function Start(docs: seq<Doc>, k: nat): nat
    requires k <= |docs|
  {
    if k == 0 then FIRST else At(docs[k - 1].m, docs[k - 1].end)
  }

  ghost predicate EntryOk(e: Entry, buf: seq<byte>, marks: set<nat>) {
    && e.offset in marks && Scan(buf, e.offset).Some?
    && Scan(buf, e.offset).value.0.Text? && Scan(buf, e.offset).value.1 == e.offset + e.len
  }

  ghost predicate Entries(es: seq<Entry>, buf: seq<byte>, marks: set<nat>) {
    forall e :: e in es ==> EntryOk(e, buf, marks)
  }

  /** Entries recorded before position `base`. */
  function Before(es: seq<Entry>, base: nat): (r: seq<Entry>) {
    if es == [] then []
    else if es[|es| - 1].offset < base then Before(es[..|es| - 1], base) + [es[|es| - 1]]
    else Before(es[..|es| - 1], base)
  }

  lemma {:induction false} BeforeMembers(es: seq<Entry>, base: nat)
    ensures forall e :: e in Before(es, base) <==> e in es && e.offset < base
    decreases |es|
  {
    if es != [] {
      BeforeMembers(es[..|es| - 1], base);
      assert es == es[..|es| - 1] + [es[|es| - 1]];
    }
  }

  /** The targets of REFP and ALIAS carry the track flag, so that a decoder will remember them. */
  ghost predicate Flagged(buf: seq<byte>, marks: set<nat>) {
    forall x :: x in marks && Scan(buf, x).Some? ==>
      Tracked(Scan(buf, x).value.0, buf, marks) && Backward(Scan(buf, x).value.0, x)
  }

  predicate Backward(t: Token, x: nat) {
    (t.Refer? || t.Alias?) ==> t.target < x
  }

  ghost predicate Tracked(t: Token, buf: seq<byte>, marks: set<nat>) {
    (t.Refer? || t.Alias?) ==> t.target in marks && t.target < |buf| && buf[t.target] >= HIGH
  }

  ghost predicate DocsOk(docs: seq<Doc>, buf: seq<byte>, kept: set<nat>, mode: Mode) {
    forall k :: 0 <= k < |docs| ==> DocOk(docs, k, buf, kept, mode)
  }

  ghost predicate DocOk(docs: seq<Doc>, k: nat, buf: seq<byte>, kept: set<nat>, mode: Mode)
    requires k < |docs|
  {
    var d := docs[k];
    && Mapped(d.part.inp, d.end, buf, kept, d.m, d.img) && Sound(d.part.inp) && Covered(d.part.inp, d.part.at, d.end, d.img)
    && d.part.at in d.m && d.m[d.part.at] == Start(docs, k)
    && (mode.Verbatim? ==> Exact(d.m, d.img))
    && (!mode.Loose? ==> FormsKept(d.part.inp, buf, d.img))
  }

  /** The output: `kept` are the tags of the merged documents, which fill it up to `base`; `marks` are
      those and the tags of the document in hand. */
  ghost predicate Core(buf: seq<byte>, base: nat, marks: set<nat>, kept: set<nat>, done: Ledger,
                       strings: seq<Entry>, classes: seq<Entry>, mode: Mode) {
    && FIRST <= base <= |buf| && buf[..FIRST] == PRELUDE
    && kept <= marks && Marked(buf, marks)
    && (forall x :: x in marks ==> FIRST <= x && (x in kept <==> x < base))
    && (forall x :: x in kept ==> Scan(buf, x).Some? && Scan(buf, x).value.1 <= base)
    && DocsOk(done.docs, buf, kept, mode) && base == Start(done.docs, |done.docs|)
    && |done.body| == base && FlagsOnly(done.body, buf, base, kept)
    && Flagged(buf, marks)
    && Entries(Before(strings, base), buf, kept) && Entries(Before(classes, base), buf, kept)
  }

  /** The bytes of `was` stand at the front of `buf`, track flags raised on some of the tags in `kept`. */
  ghost predicate Preserved(was: seq<byte>, kept: set<nat>, buf: seq<byte>, kept': set<nat>) {
    FlagsOnly(was, buf, |was|, kept) && kept <= kept'
  }

  lemma CorePreserved(buf: seq<byte>, base: nat, marks: set<nat>, kept: set<nat>, done: Ledger,
                      strings: seq<Entry>, classes: seq<Entry>, mode: Mode)
    requires Core(buf, base, marks, kept, done, strings, classes, mode)
    ensures Preserved(done.body, kept, buf, marks) && |done.body| == base
  {
    hide Scan, DocsOk;
  }

  /** The stack of referred-to offsets that are still ahead, and the table of those already met. */
  ghost predicate StackOk(i: nat, lim: nat, tracked: seq<nat>, table: map<nat, nat>, img: map<nat, nat>, targets: set<nat>) {
    && (forall k :: 0 <= k < |tracked| ==> tracked[k] in targets && lim <= tracked[k])
    && (forall j, k :: 0 <= j < k < |tracked| ==> tracked[j] > tracked[k])
    && (forall x :: x in targets && lim <= x ==> x in tracked)
    && (forall x :: x in targets && x < i ==> x in img && x in table && table[x] == img[x])
  }

  /** The document in hand: translated from `at` up to i, the output standing at the end of `buf`. */
  ghost predicate Current(inp: seq<byte>, at: nat, i: nat, buf: seq<byte>, base: nat, marks: set<nat>,
                          m: map<nat, nat>, img: map<nat, nat>, strings: seq<Entry>, classes: seq<Entry>, mode: Mode) {
    && Sound(inp) && 1 <= |inp|
    && Mapped(inp, i, buf, marks, m, img) && m[i] == |buf| && Covered(inp, at, i, img)
    && 1 <= at <= i && at in m && m[at] == base
    && Entries(strings, buf, marks) && Entries(classes, buf, marks)
    && |buf| <= base + GROWTH * (i - 1) && base + GROWTH * |inp| < WORD
    && (mode.Verbatim? ==> Exact(m, img))
    && (!mode.Loose? ==> FormsKept(inp, buf, img))
  }

  lemma EntriesStable(es: seq<Entry>, buf: seq<byte>, buf': seq<byte>, marks: set<nat>, marks': set<nat>)
    requires Entries(es, buf, marks) && SameTags(buf, buf', marks) && marks <= marks'
    ensures Entries(es, buf', marks')
  {
    hide Scan;
    forall e | e in es
      ensures EntryOk(e, buf', marks')
    {
      assert EntryOk(e, buf, marks);
    }
  }

  lemma FormsStable(inp: seq<byte>, upto: nat, buf: seq<byte>, buf': seq<byte>, marks: set<nat>, marks': set<nat>,
                    m: map<nat, nat>, img: map<nat, nat>)
    requires Mapped(inp, upto, buf, marks, m, img) && SameTags(buf, buf', marks) && marks <= marks'
    ensures FormsKept(inp, buf, img) ==> FormsKept(inp, buf', img)
  {
    hide Scan, Path, Local;
    if FormsKept(inp, buf, img) {
      forall x | x in img && TextAt(inp, x)
        ensures FormKept(inp, buf', img, x)
      {
        assert ImageOf(inp, x, buf, marks, m, img[x]) && FormKept(inp, buf, img, x);
      }
    }
  }

  lemma DocsStable(docs: seq<Doc>, buf: seq<byte>, buf': seq<byte>, kept: set<nat>, mode: Mode)
    requires DocsOk(docs, buf, kept, mode) && SameTags(buf, buf', kept)
    ensures DocsOk(docs, buf', kept, mode)
  {
    hide Scan, Path, Mapped;
    forall k | 0 <= k < |docs|
      ensures DocOk(docs, k, buf', kept, mode)
    {
      assert DocOk(docs, k, buf, kept, mode);
      var d := docs[k];
      MappedStable(d.part.inp, d.end, buf, buf', kept, kept, d.m, d.img);
      FormsStable(d.part.inp, d.end, buf, buf', kept, kept, d.m, d.img);
    }
  }

  /** Appending one tag to the output, and raising track flags on earlier ones. */
  lemma CoreGrows(was: seq<byte>, buf: seq<byte>, base: nat, marks: set<nat>, kept: set<nat>, done: Ledger,
                  strings: seq<Entry>, classes: seq<Entry>, mode: Mode)
    requires Core(was, base, marks, kept, done, strings, classes, mode)
    requires FlagsOnly(was, buf, |was|, marks)
    requires Scan(buf, |was|).Some? && Tracked(Scan(buf, |was|).value.0, buf, marks)
    ensures SameTags(was, buf, marks) && Marked(buf, marks + {|was|})
    ensures Core(buf, base, marks + {|was|}, kept, done, strings, classes, mode)
  {
    KeepTags(was, buf, |was|, marks);
    hide Scan;
    DocsStable(done.docs, was, buf, kept, mode);
    EntriesStable(Before(strings, base), was, buf, kept, kept);
    EntriesStable(Before(classes, base), was, buf, kept, kept);
    assert buf[..FIRST] == PRELUDE by {
      forall j | 0 <= j < FIRST
        ensures buf[j] == was[j]
      {
        assert j !in marks;
      }
      assert buf[..FIRST] == was[..FIRST];
    }
    var marks' := marks + {|was|};
    forall x | x in marks' && Scan(buf, x).Some?
      ensures Tracked(Scan(buf, x).value.0, buf, marks') && Backward(Scan(buf, x).value.0, x)
    {
      if x in marks {
        assert Tracked(Scan(was, x).value.0, was, marks) && Backward(Scan(was, x).value.0, x);
      } else {
        CoreMarks(was, buf, base, marks, kept, done, strings, classes, mode);
      }
    }
  }

  lemma CurrentAt(inp: seq<byte>, at: nat, i: nat, buf: seq<byte>, base: nat, marks: set<nat>, m: map<nat, nat>,
                  img: map<nat, nat>, strings: seq<Entry>, classes: seq<Entry>, mode: Mode)
    requires Current(inp, at, i, buf, base, marks, m, img, strings, classes, mode)
    ensures 1 <= at <= i <= |inp| && Path(inp, 1, i) && i in m && m[i] == |buf|
    ensures forall x :: x in img ==> 1 <= x < i && img[x] in marks
    ensures forall x :: at <= x < i && Path(inp, 1, x) && !BorrowedAt(inp, x) ==> x in img
  {
    PathOrder(inp, 1, i);
    hide Scan, Path, Local, BorrowedAt;
    forall x | x in img
      ensures img[x] in marks
    {
      assert ImageOf(inp, x, buf, marks, m, img[x]);
    }
  }

  /** Offsets only ever name tags, so none lies strictly inside the tag at i. */
  lemma NoTargetInside(inp: seq<byte>, i: nat, x: nat)
    requires Sound(inp) && Path(inp, 1, i) && Scan(inp, i).Some?
    requires Path(inp, 1, x) && i < x
    ensures Scan(inp, i).value.1 <= x
  {
    PathNoGap(inp, 1, i, x);
  }

  /** A tag other than an object's has been carried over: it became the tag at the end of `was`, and
      offsets that named it now name v. */
  lemma CurrentStep(inp: seq<byte>, at: nat, i: nat, was: seq<byte>, buf: seq<byte>, base: nat, marks: set<nat>, m: map<nat, nat>,
                    img: map<nat, nat>, v: nat, strings: seq<Entry>, classes: seq<Entry>,
                    strings': seq<Entry>, classes': seq<Entry>, mode: Mode)
    requires Current(inp, at, i, was, base, marks, m, img, strings, classes, mode)
    requires SameTags(was, buf, marks) && Scan(inp, i).Some? && !IsObject(Scan(inp, i).value.0)
    requires var q := Scan(inp, i).value.1;
             && Local(inp, i, buf, marks + {|was|}, m[q := |buf|], img[i := v])
             && ImageOf(inp, i, buf, marks + {|was|}, m[q := |buf|], v)
             && |buf| <= |was| + GROWTH * (q - i)
    requires Entries(strings', buf, marks + {|was|}) && Entries(classes', buf, marks + {|was|})
    requires mode.Verbatim? ==> v == |was|
    requires !mode.Loose? && TextAt(inp, i) ==> Scan(buf, v).Some? && Scan(buf, v).value.0 == Scan(inp, i).value.0
    ensures var q := Scan(inp, i).value.1;
            Current(inp, at, q, buf, base, marks + {|was|}, m[q := |buf|], img[i := v], strings', classes', mode)
  {
    hide Scan, Path, Local, ImageOf, Sound, Entries, SameTags, BorrowedAt, TextAt;
    FormsStable(inp, i, was, buf, marks, marks + {|was|}, m, img);
    var q := Scan(inp, i).value.1;
    PathStep(inp, 1, i);
    forall x | i <= x < q && Path(inp, 1, x)
      ensures x == i
    {
      if i < x {
        NoTargetInside(inp, i, x);
      }
    }
    MappedStep(inp, i, q, was, buf, marks, marks + {|was|}, m, img, img[i := v]);
  }

  /** The same for an object and the class name behind it, which ends at e. */
  lemma CurrentStepObject(inp: seq<byte>, at: nat, i: nat, was: seq<byte>, buf: seq<byte>, base: nat, marks: set<nat>, marks': set<nat>,
                          m: map<nat, nat>, img: map<nat, nat>, v: nat, strings: seq<Entry>, classes: seq<Entry>,
                          strings': seq<Entry>, classes': seq<Entry>, mode: Mode)
    requires Current(inp, at, i, was, base, marks, m, img, strings, classes, mode)
    requires SameTags(was, buf, marks) && marks + {|was|} <= marks'
    requires Scan(inp, i).Some? && IsObject(Scan(inp, i).value.0) && TextAt(inp, i + 1) && Scan(inp, i).value.1 == i + 1
    requires var e := Scan(inp, i + 1).value.1;
             && Local(inp, i, buf, marks', m[e := |buf|], img[i := |was|][i + 1 := v])
             && ImageOf(inp, i, buf, marks', m[e := |buf|], |was|)
             && ImageOf(inp, i + 1, buf, marks', m[e := |buf|], v)
             && |buf| <= |was| + GROWTH * (e - i)
    requires Entries(strings', buf, marks') && Entries(classes', buf, marks')
    requires mode.Verbatim? ==> v == |was| + 1
    requires !mode.Loose? ==> Scan(buf, v).Some? && Scan(buf, v).value.0 == Scan(inp, i + 1).value.0
    ensures var e := Scan(inp, i + 1).value.1;
            Current(inp, at, e, buf, base, marks', m[e := |buf|], img[i := |was|][i + 1 := v], strings', classes', mode)
  {
    hide Scan, Path, Local, ImageOf, Sound, Entries, SameTags, BorrowedAt;
    FormsStable(inp, i, was, buf, marks, marks', m, img);
    var e := Scan(inp, i + 1).value.1;
    PathStep(inp, 1, i);
    PathStep(inp, 1, i + 1);
    forall x | i <= x < e && Path(inp, 1, x)
      ensures x == i || x == i + 1
    {
      if i + 1 < x {
        NoTargetInside(inp, i + 1, x);
      }
    }
    MappedStep(inp, i, e, was, buf, marks, marks', m, img, img[i := |was|][i + 1 := v]);
  }

  /** And for an object whose class name is a COPY: only the COPY was written. */
  lemma CurrentStepBorrowed(inp: seq<byte>, at: nat, i: nat, was: seq<byte>, buf: seq<byte>, base: nat, marks: set<nat>,
                            m: map<nat, nat>, img: map<nat, nat>, strings: seq<Entry>, classes: seq<Entry>,
                            strings': seq<Entry>, classes': seq<Entry>, mode: Mode)
    requires Current(inp, at, i, was, base, marks, m, img, strings, classes, mode)
    requires SameTags(was, buf, marks)
    requires Scan(inp, i).Some? && IsObject(Scan(inp, i).value.0) && Scan(inp, i).value.1 == i + 1 && BorrowedAt(inp, i + 1)
    requires var e := Scan(inp, i + 1).value.1;
             && Local(inp, i, buf, marks + {|was|}, m[e := |buf|], img[i := |was|])
             && ImageOf(inp, i, buf, marks + {|was|}, m[e := |buf|], |was|)
             && |buf| <= |was| + GROWTH * (e - i)
    requires Entries(strings', buf, marks + {|was|}) && Entries(classes', buf, marks + {|was|})
    ensures var e := Scan(inp, i + 1).value.1;
            Current(inp, at, e, buf, base, marks + {|was|}, m[e := |buf|], img[i := |was|], strings', classes', mode)
  {
    hide Scan, Path, Local, ImageOf, Sound, Entries, SameTags;
    FormsStable(inp, i, was, buf, marks, marks + {|was|}, m, img);
    var e := Scan(inp, i + 1).value.1;
    PathStep(inp, 1, i);
    PathStep(inp, 1, i + 1);
    forall x | i <= x < e && Path(inp, 1, x)
      ensures x == i || x == i + 1
    {
      if i + 1 < x {
        NoTargetInside(inp, i + 1, x);
      }
    }
    MappedStep(inp, i, e, was, buf, marks, marks + {|was|}, m, img, img[i := |was|]);
  }

  predicate Plain(t: Token) {
    t.Leaf? || t.Num? || t.Text? || t.Pad? || (t.Open? && !IsObject(t))
  }

  /** `buf` is `was` with the bytes of input[i..e] behind it, the track flag of the first aside. */
  predicate Copied(inp: seq<byte>, i: nat, e: nat, was: seq<byte>, buf: seq<byte>) {
    && i < e <= |inp| && |buf| == |was| + (e - i)
    && buf[..|was|] == was && buf[|was|] % HIGH == inp[i] % HIGH && buf[|was| + 1..] == inp[i + 1..e]
  }

  lemma CopiedHere(inp: seq<byte>, i: nat, e: nat, was: seq<byte>, buf: seq<byte>)
    requires i < e <= |inp| && buf == was + inp[i..e]
    ensures Copied(inp, i, e, was, buf)
  {
    assert buf[|was|] == inp[i..e][0] == inp[i];
    assert buf[|was| + 1..] == inp[i..e][1..] == inp[i + 1..e];
  }

  lemma CopiedScan(inp: seq<byte>, i: nat, e: nat, was: seq<byte>, buf: seq<byte>, marks: set<nat>)
    requires Copied(inp, i, e, was, buf) && Scan(inp, i).Some? && Scan(inp, i).value.1 == e
    ensures Scan(buf, |was|) == Some((Scan(inp, i).value.0, |buf|))
    ensures FlagsOnly(was, buf, |was|, marks)
  {
    assert buf[|was| + 1..|was| + 1 + (e - i - 1)] == buf[|was| + 1..];
    ScanShift(inp, i, buf, |was|);
    assert forall j :: 0 <= j < |was| ==> buf[j] == buf[..|was|][j];
  }

  /** A tag that became itself. */
  lemma PlainLocal(inp: seq<byte>, i: nat, out: seq<byte>, marks: set<nat>, m: map<nat, nat>, img: map<nat, nat>)
    requires i in m && i in img && img[i] == m[i] && m[i] in marks && 0 < m[i]
    requires Scan(inp, i).Some? && Scan(out, m[i]).Some? && Scan(inp, i).value.0 == Scan(out, m[i]).value.0
    requires Plain(Scan(inp, i).value.0)
    requires Scan(inp, i).value.1 in m && m[Scan(inp, i).value.1] == Scan(out, m[i]).value.1
    ensures Local(inp, i, out, marks, m, img) && ImageOf(inp, i, out, marks, m, img[i])
  {
    hide Scan;
  }

  /** A link that became the same link to the image of its target. */
  lemma LinkLocal(inp: seq<byte>, i: nat, out: seq<byte>, marks: set<nat>, m: map<nat, nat>, img: map<nat, nat>)
    requires i in m && i in img && img[i] == m[i] && m[i] in marks && 0 < m[i]
    requires Scan(inp, i).Some? && Scan(out, m[i]).Some?
    requires var t, u := Scan(inp, i).value.0, Scan(out, m[i]).value.0;
             (t.Copy? || t.Refer? || t.Alias? || t.ObjectV?) && t.target in img && img[t.target] < m[i]
             && u == t.(target := img[t.target])
    requires Scan(inp, i).value.1 in m && m[Scan(inp, i).value.1] == Scan(out, m[i]).value.1
    ensures Local(inp, i, out, marks, m, img) && ImageOf(inp, i, out, marks, m, img[i])
  {
    hide Scan;
  }

  /** A string that became a COPY of an equal string before it. */
  lemma DedupedLocal(inp: seq<byte>, i: nat, out: seq<byte>, marks: set<nat>, m: map<nat, nat>, img: map<nat, nat>)
    requires i in m && i in img && m[i] in marks
    requires TextAt(inp, i) && Scan(out, m[i]).Some?
    requires Scan(out, m[i]).value.0 == Copy(img[i]) && TextTwin(Scan(inp, i).value.0, out, img[i], m[i], marks)
    requires Scan(inp, i).value.1 in m && m[Scan(inp, i).value.1] == Scan(out, m[i]).value.1
    ensures Local(inp, i, out, marks, m, img) && ImageOf(inp, i, out, marks, m, img[i])
  {
    hide Scan;
  }

  /** Marks are positions of the buffer. */
  lemma CoreMarks(was: seq<byte>, buf: seq<byte>, base: nat, marks: set<nat>, kept: set<nat>, done: Ledger,
                  strings: seq<Entry>, classes: seq<Entry>, mode: Mode)
    requires Core(was, base, marks, kept, done, strings, classes, mode)
    ensures forall x :: x in marks ==> FIRST <= x < |was|
  {
    forall x | x in marks
      ensures FIRST <= x < |was|
    {
      assert Scan(was, x).Some?;
    }
  }

  lemma CoreTags(was: seq<byte>, buf: seq<byte>, base: nat, marks: set<nat>, kept: set<nat>, done: Ledger,
                 strings: seq<Entry>, classes: seq<Entry>, mode: Mode)
    requires Core(was, base, marks, kept, done, strings, classes, mode) && FlagsOnly(was, buf, |was|, marks)
    ensures SameTags(was, buf, marks) && Marked(buf, marks)
  {
    KeepTags(was, buf, |was|, marks);
  }

  /** Scanning a tag freshly written behind `was`, whatever flags were raised meanwhile. */
  lemma WrittenScan(was: seq<byte>, tag: byte, n: nat, out: seq<byte>, marks: set<nat>)
    requires n < WORD && TakesNumber(tag) && NumberToken(tag, n).Some?
    requires FlagsOnly(was + [tag] + Write(n), out, |was + [tag] + Write(n)|, marks) && |out| == |was + [tag] + Write(n)|
    requires forall x :: x in marks ==> x < |was|
    ensures Scan(out, |was|) == Some((NumberToken(tag, n).value, |out|))
    ensures FlagsOnly(was, out, |was|, marks)
    ensures |was| + 2 <= |out| <= |was| + 11
  {
    var full := was + [tag] + Write(n);
    assert out[|was|..] == [tag] + Write(n) by {
      assert full[|was|..] == [tag] + Write(n);
      forall j | |was| <= j < |out|
        ensures out[j] == full[j]
      {
        assert j !in marks;
      }
      assert out[|was|..] == full[|was|..];
    }
    ScanWritten(out, |was|, tag, n);
    assert forall j :: 0 <= j < |was| ==> full[j] == was[j];
  }

  /** An object that became itself with its class name behind it, or an OBJECTV naming an equal one. */
  lemma ObjectLocal(inp: seq<byte>, i: nat, out: seq<byte>, marks: set<nat>, m: map<nat, nat>, img: map<nat, nat>)
    requires i in m && i in img && img[i] == m[i] && m[i] in marks && 0 < m[i] && i + 1 in img
    requires Scan(inp, i).Some? && Scan(out, m[i]).Some? && Scan(inp, i).value.1 == i + 1 && TextAt(inp, i + 1)
    requires IsObject(Scan(inp, i).value.0) && Scan(inp, i + 1).value.1 in m
    requires var (t, c, e) := (Scan(inp, i).value.0, Scan(inp, i + 1).value.0, Scan(inp, i + 1).value.1);
             var (u, r) := Scan(out, m[i]).value;
             || (u == t && r in marks && img[i + 1] == r && Scan(out, r) == Some((c, m[e])))
             || (u == ObjectV(t.tag, img[i + 1]) && TextTwin(c, out, img[i + 1], m[i], marks) && m[e] == r)
    ensures Local(inp, i, out, marks, m, img)
    ensures ImageOf(inp, i, out, marks, m, img[i]) && ImageOf(inp, i + 1, out, marks, m, img[i + 1])
  {
    hide Scan;
  }

  /** An object that became the COPY that was its class name. */
  lemma BorrowedLocal(inp: seq<byte>, i: nat, out: seq<byte>, marks: set<nat>, m: map<nat, nat>, img: map<nat, nat>)
    requires i in m && i in img && img[i] == m[i] && m[i] in marks && 0 < m[i]
    requires Scan(inp, i).Some? && Scan(out, m[i]).Some? && Scan(inp, i).value.1 == i + 1
    requires IsObject(Scan(inp, i).value.0) && Scan(inp, i + 1).Some? && Scan(inp, i + 1).value.0.Copy?
    requires var (c, e) := Scan(inp, i + 1).value;
             c.target in img && img[c.target] < m[i] && e in m && Scan(out, m[i]).value == (Copy(img[c.target]), m[e])
    ensures Local(inp, i, out, marks, m, img) && ImageOf(inp, i, out, marks, m, img[i])
  {
    hide Scan;
  }

  lemma ObjectCopiedScan(inp: seq<byte>, i: nat, e: nat, was: seq<byte>, objtag: byte, out: seq<byte>)
    requires i + 1 < e <= |inp| && out == was + [objtag] + inp[i + 1..e]
    requires objtag == OBJECT || objtag == OBJECT_FREEZE
    ensures Scan(was + [objtag], |was|) == Some((Open(objtag, 0), |was| + 1))
    ensures Copied(inp, i + 1, e, was + [objtag], out)
    ensures FlagsOnly(was, was + [objtag], |was|, {})
  {
  }

  lemma FlagsMore(was: seq<byte>, buf: seq<byte>, n: nat, marks: set<nat>, marks': set<nat>)
    requires FlagsOnly(was, buf, n, marks) && marks <= marks'
    ensures FlagsOnly(was, buf, n, marks')
  {
  }

  /** The same bytes elsewhere are the same string. */
  lemma FoundText(inp: seq<byte>, i: nat, e: nat, out: seq<byte>, v: nat, marks: set<nat>)
    requires TextAt(inp, i) && Scan(inp, i).value.1 == e
    requires v in marks && 0 < v && v + (e - i) <= |out| && out[v..v + (e - i)] == inp[i..e]
    ensures TextTwin(Scan(inp, i).value.0, out, v, |out|, marks) && Scan(out, v).value.0 == Scan(inp, i).value.0
  {
    assert SameBytes(inp, i, out, v, e - i) by {
      assert inp[i..i + (e - i)] == inp[i..e];
    }
    SamePart(inp, i, out, v, e - i, 0, 1);
    SamePart(inp, i, out, v, e - i, 1, e - i - 1);
    ScanShift(inp, i, out, v);
  }

  lemma BeforeNew(es: seq<Entry>, e: Entry, base: nat)
    requires base <= e.offset
    ensures Before(es + [e], base) == Before(es, base)
  {
    assert (es + [e])[..|es|] == es;
  }

  /** Recording a new string does not touch what is said about the merged documents. */
  lemma CoreRecords(buf: seq<byte>, base: nat, marks: set<nat>, kept: set<nat>, done: Ledger,
                    strings: seq<Entry>, classes: seq<Entry>, mode: Mode, e: Entry)
    requires Core(buf, base, marks, kept, done, strings, classes, mode) && base <= e.offset
    ensures Core(buf, base, marks, kept, done, strings + [e], classes, mode)
    ensures Core(buf, base, marks, kept, done, strings, classes + [e], mode)
  {
    BeforeNew(strings, e, base);
    BeforeNew(classes, e, base);
  }

  /** Padding is never referred to. */
  lemma PadNoTarget(inp: seq<byte>, p: nat, x: nat)
    requires Sound(inp) && Path(inp, 1, p) && x in Targets(inp, p)
    ensures !PadAt(inp, x)
    decreases |inp| - p
  {
    var (t, q) := Scan(inp, p).value;
    if x in Links(t) {
      assert TagSound(inp, p);
      ScanPad(inp, x);
    } else {
      PathStep(inp, 1, p);
      PadNoTarget(inp, q, x);
    }
  }

  /** A link met at i names an offset met before, so the table knows where it went. */
  lemma LinkKnown(inp: seq<byte>, at: nat, i: nat, buf: seq<byte>, base: nat, marks: set<nat>, m: map<nat, nat>, img: map<nat, nat>,
                  strings: seq<Entry>, classes: seq<Entry>, mode: Mode, x: nat,
                  tracked: seq<nat>, table: map<nat, nat>)
    requires Current(inp, at, i, buf, base, marks, m, img, strings, classes, mode)
    requires Scan(inp, i).Some? && Links(Scan(inp, i).value.0) == {x} && at == 1
    requires StackOk(i, i + 1, tracked, table, img, Targets(inp, 1))
    ensures 0 < x < i && x in img && x in table && table[x] == img[x] && img[x] in marks
    ensures Scan(inp, i).value.0.Copy? || Scan(inp, i).value.0.ObjectV? ==>
      TextAt(inp, x) && TextAt(buf, img[x])
  {
    CurrentAt(inp, at, i, buf, base, marks, m, img, strings, classes, mode);
    assert TagSound(inp, i);
    TargetsOnPath(inp, 1, i);
    assert x in Targets(inp, 1);
    assert ImageOf(inp, x, buf, marks, m, img[x]);
  }

  /** The image of a string is a string. */
  lemma ImageText(inp: seq<byte>, at: nat, i: nat, buf: seq<byte>, base: nat, marks: set<nat>, m: map<nat, nat>, img: map<nat, nat>,
                  strings: seq<Entry>, classes: seq<Entry>, mode: Mode, x: nat)
    requires Current(inp, at, i, buf, base, marks, m, img, strings, classes, mode) && at <= x < i && Path(inp, 1, x) && TextAt(inp, x)
    ensures x in img && img[x] in marks && TextAt(buf, img[x])
  {
    hide Path, Local, Sound;
    NotBorrowed(inp, x);
    hide Scan, BorrowedAt;
    assert ImageOf(inp, x, buf, marks, m, img[x]);
  }

  lemma NotBorrowed(b: seq<byte>, x: nat)
    ensures TextAt(b, x) ==> !BorrowedAt(b, x)
  {
    hide Scan;
  }

  /** The same for the COPY that is the class name of the object at i. */
  lemma BorrowedTarget(inp: seq<byte>, at: nat, i: nat, buf: seq<byte>, base: nat, marks: set<nat>, m: map<nat, nat>, img: map<nat, nat>,
                       strings: seq<Entry>, classes: seq<Entry>, mode: Mode, tracked: seq<nat>, table: map<nat, nat>)
    requires Current(inp, at, i, buf, base, marks, m, img, strings, classes, mode) && at == 1
    requires Scan(inp, i).Some? && IsObject(Scan(inp, i).value.0) && Scan(inp, i).value.1 == i + 1 && BorrowedAt(inp, i + 1)
    requires StackOk(i, i + 2, tracked, table, img, Targets(inp, 1))
    ensures var x := Scan(inp, i + 1).value.0.target;
            0 < x < i && x in img && x in table && table[x] == img[x] && img[x] in marks && TextAt(buf, img[x])
  {
    hide Path, Current, Sound, Scan, Targets;
    CurrentFacts(inp, at, i, buf, base, marks, m, img, strings, classes, mode);
    PathStep(inp, 1, i);
    SoundTag(inp, i + 1);
    TargetsOnPath(inp, 1, i + 1);
    var x := Scan(inp, i + 1).value.0.target;
    assert x in Targets(inp, 1);
    assert !TextAt(inp, i);
    ImageText(inp, at, i, buf, base, marks, m, img, strings, classes, mode, x);
  }

  lemma SoundTag(b: seq<byte>, p: nat)
    requires Sound(b) && Path(b, 1, p) && Scan(b, p).Some?
    ensures TagSound(b, p)
  {
  }

  /** Nothing refers to a class name that is a COPY. */
  lemma {:induction false} BorrowedNoTarget(inp: seq<byte>, p: nat, x: nat)
    requires Sound(inp) && Path(inp, 1, p) && x in Targets(inp, p)
    ensures !BorrowedAt(inp, x)
    decreases |inp| - p
  {
    var (t, q) := Scan(inp, p).value;
    if x in Links(t) {
      assert TagSound(inp, p);
    } else {
      PathStep(inp, 1, p);
      BorrowedNoTarget(inp, q, x);
    }
  }

  /** The smallest offset still ahead is on top of the stack. */
  lemma StackTop(i: nat, lim: nat, tracked: seq<nat>, table: map<nat, nat>, img: map<nat, nat>, targets: set<nat>)
    requires StackOk(i, lim, tracked, table, img, targets)
    ensures lim in targets <==> |tracked| > 0 && tracked[|tracked| - 1] == lim
  {
    if lim in targets {
      assert lim in tracked;
    }
  }

  predicate Holds(e: Entry, buf: seq<byte>, v: nat, s: seq<byte>) {
    e.offset == v && e.len == |s| && v + |s| <= |buf| && buf[v..v + |s|] == s
  }

  /** An entry found for the bytes of a string of the input stands for an equal string of the output. */
  lemma EntryTwin(es: seq<Entry>, inp: seq<byte>, i: nat, was: seq<byte>, v: nat, marks: set<nat>, s: seq<byte>)
    requires TextAt(inp, i) && Entries(es, was, marks) && Marked(was, marks)
    requires i + |s| == Scan(inp, i).value.1 && s == inp[i..i + |s|]
    requires exists e :: e in es && Holds(e, was, v, s)
    ensures TextTwin(Scan(inp, i).value.0, was, v, |was|, marks) && Scan(was, v).value.0 == Scan(inp, i).value.0
  {
    var e :| e in es && Holds(e, was, v, s);
    assert EntryOk(e, was, marks);
    FoundText(inp, i, Scan(inp, i).value.1, was, v, marks);
  }

  /** How a tag with an offset scans. */
  lemma LinkScan(inp: seq<byte>, i: nat, tag: byte)
    requires i < |inp| && inp[i] % HIGH == tag
    requires tag == COPY || tag == REFP || tag == ALIAS || tag == OBJECTV || tag == OBJECTV_FREEZE
    ensures Scan(inp, i).Some? <==> Read(inp, i + 1).Some?
    ensures Scan(inp, i).Some? ==>
      var (x, q) := Read(inp, i + 1).value;
      Scan(inp, i).value.1 == q && NumberToken(tag, x) == Some(Scan(inp, i).value.0)
      && Links(Scan(inp, i).value.0) == {x}
    ensures Scan(inp, i).Some? ==>
      var t := Scan(inp, i).value.0;
      && (t.Copy? || t.Refer? || t.Alias? || t.ObjectV?) && (t.Copy? <==> tag == COPY)
      && forall v: nat :: NumberToken(tag, v) == Some(t.(target := v))
  {
  }

  lemma TextScan(inp: seq<byte>, i: nat)
    requires i < |inp| && (inp[i] % HIGH == BINARY || inp[i] % HIGH == STR_UTF8)
    ensures Scan(inp, i).Some? <==>
      Read(inp, i + 1).Some? && Read(inp, i + 1).value.1 + Read(inp, i + 1).value.0 <= |inp|
    ensures Scan(inp, i).Some? ==>
      Scan(inp, i).value.0.Text? && Scan(inp, i).value.1 == Read(inp, i + 1).value.1 + Read(inp, i + 1).value.0
  {
  }

  lemma ShortScan(inp: seq<byte>, i: nat)
    requires i < |inp| && inp[i] % HIGH >= SHORT_BINARY
    ensures Scan(inp, i).Some? <==> i + 1 + (inp[i] % HIGH - SHORT_BINARY) <= |inp|
    ensures Scan(inp, i).Some? ==>
      Scan(inp, i).value.0.Text? && Scan(inp, i).value.1 == i + 1 + (inp[i] % HIGH - SHORT_BINARY)
  {
  }

  /** The first byte of a string, with or without the track flag. */
  lemma TextTag(b: seq<byte>, p: nat)
    ensures TextAt(b, p) ==> b[p] == BINARY || b[p] == STR_UTF8 || b[p] >= SHORT_BINARY
  {
  }

  lemma TextPlain(b: seq<byte>, i: nat)
    requires TextAt(b, i)
    ensures Scan(b, i).Some? && Scan(b, i).value.0.Text? && Plain(Scan(b, i).value.0)
  {
    hide Scan;
  }

  lemma ParseKey(b: seq<byte>, p: nat)
    ensures Parse(b, p, [Key]) ==
            (if Scan(b, p).Some? && Stringish(Scan(b, p).value.0) then Some(Scan(b, p).value.1) else None)
  {
    hide Scan;
    if Scan(b, p).Some? && Stringish(Scan(b, p).value.0) {
      assert Wants(Scan(b, p).value.0) + [Key][1..] == [];
    }
  }

  lemma StringTag(b: seq<byte>, p: nat)
    requires p < |b|
    ensures Scan(b, p).Some? ==>
      (Stringish(Scan(b, p).value.0) <==> b[p] % HIGH >= SHORT_BINARY || b[p] % HIGH == BINARY
                                          || b[p] % HIGH == STR_UTF8 || b[p] % HIGH == COPY)
  {
  }

  /** In a sound document the class name of the object at i is a string or a COPY. */
  lemma ObjectSound(inp: seq<byte>, i: nat)
    requires Sound(inp) && Path(inp, 1, i)
    requires i < |inp| && (inp[i] % HIGH == OBJECT || inp[i] % HIGH == OBJECT_FREEZE)
    ensures Scan(inp, i) == Some((Open(inp[i] % HIGH, 0), i + 1)) && i + 1 < |inp|
    ensures Scan(inp, i + 1).Some? && Scan(inp, i + 1).value.1 <= |inp|
    ensures var s := inp[i + 1] % HIGH;
            if s == COPY then Scan(inp, i + 1).value.0.Copy? && BorrowedAt(inp, i + 1)
            else TextAt(inp, i + 1) && (s >= SHORT_BINARY || s == BINARY || s == STR_UTF8)
  {
    assert Scan(inp, i) == Some((Open(inp[i] % HIGH, 0), i + 1));
    assert TagSound(inp, i);
    StringCase(inp, i + 1);
    hide Path, Sound;
  }

  lemma StringCase(b: seq<byte>, i: nat)
    requires i < |b|
    ensures TextAt(b, i) <==> Scan(b, i).Some? && (b[i] % HIGH == BINARY || b[i] % HIGH == STR_UTF8 || b[i] % HIGH >= SHORT_BINARY)
    ensures Scan(b, i).Some? ==> (Scan(b, i).value.0.Copy? <==> b[i] % HIGH == COPY)
  {
  }

  lemma ObjectClass(inp: seq<byte>, at: nat, i: nat, buf: seq<byte>, base: nat, marks: set<nat>, m: map<nat, nat>, img: map<nat, nat>,
                    strings: seq<Entry>, classes: seq<Entry>, mode: Mode)
    requires Current(inp, at, i, buf, base, marks, m, img, strings, classes, mode)
    requires i < |inp| && (inp[i] % HIGH == OBJECT || inp[i] % HIGH == OBJECT_FREEZE)
    ensures Scan(inp, i) == Some((Open(inp[i] % HIGH, 0), i + 1)) && i + 1 < |inp|
    ensures Scan(inp, i + 1).Some? && Scan(inp, i + 1).value.1 <= |inp|
    ensures var s := inp[i + 1] % HIGH;
            if s == COPY then Scan(inp, i + 1).value.0.Copy? && BorrowedAt(inp, i + 1)
            else TextAt(inp, i + 1) && (s >= SHORT_BINARY || s == BINARY || s == STR_UTF8)
  {
    hide Scan, Path, Mapped, BorrowedAt;
    CurrentAt(inp, at, i, buf, base, marks, m, img, strings, classes, mode);
    ObjectSound(inp, i);
  }

  predicate IsLeaf(tag: int) {
    || 0 <= tag <= LONG_DOUBLE || tag == UNDEF || tag == CANONICAL_UNDEF || tag == TRUE || tag == FALSE
  }

  lemma LeafScan(b: seq<byte>, p: nat)
    requires p < |b| && IsLeaf(b[p] % HIGH)
    ensures var tag := b[p] % HIGH;
            Scan(b, p).Some? <==>
              (if tag == VARINT || tag == ZIGZAG then Read(b, p + 1).Some?
               else if tag == FLOAT then p + 5 <= |b|
               else if tag == DOUBLE then p + 9 <= |b|
               else if tag == LONG_DOUBLE then p + 17 <= |b|
               else true)
    ensures Scan(b, p).Some? ==>
      var tag := b[p] % HIGH;
      && Plain(Scan(b, p).value.0) && Wants(Scan(b, p).value.0) == []
      && Scan(b, p).value.1 ==
         (if tag == VARINT || tag == ZIGZAG then Read(b, p + 1).value.1
          else if tag == FLOAT then p + 5
          else if tag == DOUBLE then p + 9
          else if tag == LONG_DOUBLE then p + 17
          else p + 1)
  {
  }

  /** Bytes behind the last marked tag that are not a tag yet do no harm. */
  lemma CoreJunk(was: seq<byte>, buf: seq<byte>, base: nat, marks: set<nat>, kept: set<nat>, done: Ledger,
                 strings: seq<Entry>, classes: seq<Entry>, mode: Mode)
    requires Core(was, base, marks, kept, done, strings, classes, mode)
    requires |was| <= |buf| && buf[..|was|] == was
    ensures Core(buf, base, marks, kept, done, strings, classes, mode)
  {
    assert forall j :: 0 <= j < |was| ==> buf[j] == buf[..|was|][j];
    KeepTags(was, buf, |was|, marks);
    hide Scan;
    DocsStable(done.docs, was, buf, kept, mode);
    EntriesStable(Before(strings, base), was, buf, kept, kept);
    EntriesStable(Before(classes, base), was, buf, kept, kept);
    assert buf[..FIRST] == was[..FIRST];
    forall x | x in marks && Scan(buf, x).Some?
      ensures Tracked(Scan(buf, x).value.0, buf, marks) && Backward(Scan(buf, x).value.0, x)
    {
      assert Tracked(Scan(was, x).value.0, was, marks) && Backward(Scan(was, x).value.0, x);
    }
  }

  /** The tags that are neither leaves, strings nor links. */
  lemma OpenScan(b: seq<byte>, p: nat)
    requires p < |b|
    ensures var tag := b[p] % HIGH;
            tag == ARRAY || tag == HASH ==>
              && (Scan(b, p).Some? <==> Read(b, p + 1).Some? && Read(b, p + 1).value.0 <= MAX_COUNT)
              && (Scan(b, p).Some? ==> Scan(b, p) == Some((Open(tag, Read(b, p + 1).value.0), Read(b, p + 1).value.1)))
    ensures var tag := b[p] % HIGH;
            && (ARRAYREF <= tag < HASHREF ==> Scan(b, p) == Some((Open(ARRAYREF, tag - ARRAYREF), p + 1)))
            && (HASHREF <= tag < SHORT_BINARY ==> Scan(b, p) == Some((Open(HASHREF, tag - HASHREF), p + 1)))
            && (tag == REFN || tag == WEAKEN ==> Scan(b, p) == Some((Open(tag, 0), p + 1)))
            && (tag == PAD ==> Scan(b, p) == Some((Pad, p + 1)))
            && (tag == EXTEND || tag == REGEXP ==> Scan(b, p) == Some((Other(tag), p + 1)))
  {
  }

  /** No other tag is accepted. */
  predicate KnownTag(tag: int) {
    || IsLeaf(tag) || BINARY <= tag <= OBJECTV_FREEZE || tag == EXTEND || tag == PAD || tag >= ARRAYREF
  }

  lemma UnknownScan(b: seq<byte>, p: nat)
    requires p < |b| && !KnownTag(b[p] % HIGH)
    ensures Scan(b, p).None?
  {
  }

  /** A sound document has no REGEXP and no EXTEND. */
  lemma NoOther(inp: seq<byte>, at: nat, i: nat, buf: seq<byte>, base: nat, marks: set<nat>, m: map<nat, nat>, img: map<nat, nat>,
                strings: seq<Entry>, classes: seq<Entry>, mode: Mode)
    requires Current(inp, at, i, buf, base, marks, m, img, strings, classes, mode)
    ensures Scan(inp, i).Some? ==> !Scan(inp, i).value.0.Other?
  {
    hide Scan, Mapped;
    CurrentAt(inp, at, i, buf, base, marks, m, img, strings, classes, mode);
    if Scan(inp, i).Some? {
      assert TagSound(inp, i);
    }
  }

  lemma PadStack(inp: seq<byte>, at: nat, i: nat, buf: seq<byte>, base: nat, marks: set<nat>, m: map<nat, nat>, img: map<nat, nat>,
                 strings: seq<Entry>, classes: seq<Entry>, mode: Mode, tracked: seq<nat>, table: map<nat, nat>)
    requires Current(inp, at, i, buf, base, marks, m, img, strings, classes, mode)
    requires PadAt(inp, i)
    ensures i !in Targets(inp, 1)
    ensures StackOk(i, i, tracked, table, img, Targets(inp, 1)) <==> StackOk(i, i + 1, tracked, table, img, Targets(inp, 1))
  {
    hide Scan, Mapped;
    if i in Targets(inp, 1) {
      PathSelf(inp, 1);
      PadNoTarget(inp, 1, i);
    }
  }

  lemma ParseObject(b: seq<byte>, p: nat)
    requires Scan(b, p).Some? && IsObject(Scan(b, p).value.0)
    requires Scan(b, Scan(b, p).value.1).Some? && Stringish(Scan(b, Scan(b, p).value.1).value.0)
    ensures Parse(b, p, [Item]) == Parse(b, Scan(b, Scan(b, p).value.1).value.1, [Item])
  {
    hide Scan;
    ParseItem(b, p);
    var q := Scan(b, p).value.1;
    assert Wants(Scan(b, q).value.0) + [Key, Item][1..] == [Item];
  }

  /** The k-th of n items behind a tag. */
  lemma ItemsNext(b: seq<byte>, p: nat, k: nat, n: nat, e: nat)
    requires k < n && Parse(b, p, Items(k)) == Some(e)
    ensures Parse(b, p, Items(k + 1)) == Parse(b, e, [Item])
    ensures Parse(b, p, Items(n)).Some? ==> Parse(b, e, [Item]).Some?
  {
    assert Items(n) == Items(k) + [Item] + Items(n - k - 1);
    assert Items(k + 1) == Items(k) + [Item];
    ParseNth(b, p, Items(k), [Item], Items(n - k - 1));
  }

  /** The k-th of n pairs behind a tag. */
  lemma PairsNext(b: seq<byte>, p: nat, k: nat, n: nat, e: nat)
    requires k < n && Parse(b, p, Pairs(k)) == Some(e)
    ensures Parse(b, p, Pairs(n)).Some? ==> Parse(b, e, [Key]).Some?
    ensures Parse(b, e, [Key]).Some? ==>
      var e1 := Parse(b, e, [Key]).value;
      && Parse(b, p, Pairs(k + 1)) == Parse(b, e1, [Item])
      && (Parse(b, p, Pairs(n)).Some? ==> Parse(b, e1, [Item]).Some?)
  {
    hide Scan, Parse;
    var keyed := Pairs(k) + [Key];
    assert Pairs(n) == keyed + ([Item] + Pairs(n - k - 1));
    assert Pairs(n) == keyed + [Item] + Pairs(n - k - 1);
    assert Pairs(k + 1) == keyed + [Item];
    ParseNth(b, p, Pairs(k), [Key], [Item] + Pairs(n - k - 1));
    ParseNth(b, p, keyed, [Item], Pairs(n - k - 1));
  }

  /** A group starts with none of its members read. */
  lemma GroupStart(b: seq<byte>, p: nat)
    ensures Items(0) == [] && Pairs(0) == [] && Parse(b, p, []) == Some(p)
  {
  }

  lemma GroupWants(n: nat)
    ensures Wants(Open(ARRAY, n)) == Items(n) && Wants(Open(ARRAYREF, n)) == Items(n)
    ensures Wants(Open(HASH, n)) == Pairs(n) && Wants(Open(HASHREF, n)) == Pairs(n)
  {
  }

  lemma EndScan(b: seq<byte>, p: nat)
    requires p >= |b|
    ensures Scan(b, p).None?
  {
  }

  predicate IsSingle(tag: int) {
    IsLeaf(tag) || tag >= SHORT_BINARY || tag == BINARY || tag == STR_UTF8 || tag == COPY || tag == REFP || tag == ALIAS
  }

  predicate IsGroup(tag: int) {
    tag == ARRAY || tag == HASH || ARRAYREF <= tag < SHORT_BINARY
  }

  lemma SingleParse(b: seq<byte>, p: nat)
    requires p < |b| && IsSingle(b[p] % HIGH)
    ensures Parse(b, p, [Item]) == (if Scan(b, p).Some? then Some(Scan(b, p).value.1) else None)
  {
    ParseItem(b, p);
    if Scan(b, p).Some? {
      SingleWants(b, p);
    }
    hide Scan;
  }

  lemma SingleWants(b: seq<byte>, p: nat)
    requires p < |b| && IsSingle(b[p] % HIGH) && Scan(b, p).Some?
    ensures Wants(Scan(b, p).value.0) == [] && !Scan(b, p).value.0.Other?
  {
    var tag := b[p] % HIGH;
    if IsLeaf(tag) {
      LeafScan(b, p);
    } else if tag >= SHORT_BINARY || tag == BINARY || tag == STR_UTF8 {
      StringCase(b, p);
    } else {
      LinkScan(b, p, tag);
    }
    hide Scan;
  }

  /** An object whose class name is a COPY has been written as that COPY. */
  lemma BorrowedCarried(inp: seq<byte>, at: nat, i: nat, was: seq<byte>, buf: seq<byte>, base: nat, marks: set<nat>, kept: set<nat>,
                        done: Ledger, m: map<nat, nat>, img: map<nat, nat>, strings: seq<Entry>, classes: seq<Entry>, mode: Mode, v: nat)
    requires Core(was, base, marks, kept, done, strings, classes, mode)
    requires Current(inp, at, i, was, base, marks, m, img, strings, classes, mode)
    requires Scan(inp, i).Some? && IsObject(Scan(inp, i).value.0) && Scan(inp, i).value.1 == i + 1 && BorrowedAt(inp, i + 1)
    requires var x := Scan(inp, i + 1).value.0.target; x in img && img[x] == v && v < |was|
    requires buf == was + [COPY] + Write(v) && |was| < WORD
    ensures Core(buf, base, marks + {|was|}, kept, done, strings, classes, mode)
    ensures var e := Scan(inp, i + 1).value.1;
            Current(inp, at, e, buf, base, marks + {|was|}, m[e := |buf|], img[i := |was|], strings, classes, mode)
  {
    hide Path, Local, ImageOf, Mapped, Core, BorrowedAt, Current, Covered, Sound, FormsKept;
    BorrowedScan(inp, i + 1);
    BufferStarted(was, base, marks, kept, done, strings, classes, mode);
    var e, marks' := Scan(inp, i + 1).value.1, marks + {|was|};
    CurrentFacts(inp, at, i, was, base, marks, m, img, strings, classes, mode);
    CoreMarks(was, buf, base, marks, kept, done, strings, classes, mode);
    hide Scan;
    assert FlagsOnly(buf, buf, |buf|, marks);
    WrittenScan(was, COPY, v, buf, marks);
    CoreGrows(was, buf, base, marks, kept, done, strings, classes, mode);
    hide FlagsOnly, SameTags, Entries;
    BorrowedLocal(inp, i, buf, marks', m[e := |buf|], img[i := |was|]);
    EntriesStable(strings, was, buf, marks, marks');
    EntriesStable(classes, was, buf, marks, marks');
    CurrentStepBorrowed(inp, at, i, was, buf, base, marks, m, img, strings, classes, strings, classes, mode);
  }

  lemma BufferStarted(buf: seq<byte>, base: nat, marks: set<nat>, kept: set<nat>, done: Ledger,
                      strings: seq<Entry>, classes: seq<Entry>, mode: Mode)
    requires Core(buf, base, marks, kept, done, strings, classes, mode)
    ensures FIRST <= |buf|
  {
  }

  lemma BorrowedScan(b: seq<byte>, x: nat)
    requires BorrowedAt(b, x)
    ensures Scan(b, x).Some? && Scan(b, x).value.0.Copy? && Scan(b, x).value.1 >= x + 2
  {
  }

  lemma CurrentFacts(inp: seq<byte>, at: nat, i: nat, buf: seq<byte>, base: nat, marks: set<nat>, m: map<nat, nat>, img: map<nat, nat>,
                     strings: seq<Entry>, classes: seq<Entry>, mode: Mode)
    requires Current(inp, at, i, buf, base, marks, m, img, strings, classes, mode)
    ensures Entries(strings, buf, marks) && Entries(classes, buf, marks) && Sound(inp) && Path(inp, 1, i)
    ensures i in m && m[i] == |buf| && i !in img
    ensures forall x :: x in img ==> 0 < img[x] && x < i
  {
    hide Scan, Path, Local, Sound, Covered, Entries, FormsKept;
    CurrentAt(inp, at, i, buf, base, marks, m, img, strings, classes, mode);
    forall x | x in img
      ensures 0 < img[x]
    {
      assert ImageOf(inp, x, buf, marks, m, img[x]);
    }
    CurrentPositive(inp, at, i, buf, base, marks, m, img, strings, classes, mode);
  }

  lemma CurrentPositive(inp: seq<byte>, at: nat, i: nat, buf: seq<byte>, base: nat, marks: set<nat>, m: map<nat, nat>, img: map<nat, nat>,
                        strings: seq<Entry>, classes: seq<Entry>, mode: Mode)
    requires Current(inp, at, i, buf, base, marks, m, img, strings, classes, mode)
    ensures m[i] == |buf|
  {
  }

  // ----- the life of a document: started, finished, or undone -----

  /** The documents the merger is meant for: soundly linked, and small enough for a 32-bit count of links. */
  ghost predicate Mergeable(doc: seq<byte>) {
    Sound(doc) && 1 <= |doc| < 2 * UNSIGNED
  }

  /** Offsets are recorded in rising order. */
  ghost predicate Rising(es: seq<Entry>) {
    forall i, j :: 0 <= i < j < |es| ==> es[i].offset < es[j].offset
  }

  lemma {:induction false} BeforeIsPrefix(es: seq<Entry>, n: nat, base: nat)
    requires n <= |es|
    requires forall k :: n <= k < |es| ==> es[k].offset >= base
    requires forall k :: 0 <= k < n ==> es[k].offset < base
    ensures Before(es, base) == es[..n]
    decreases |es|
  {
    if n < |es| {
      BeforeIsPrefix(es[..|es| - 1], n, base);
      assert es[..|es| - 1][..n] == es[..n];
    } else {
      assert es[..n] == es;
      BeforeAll(es, base);
    }
  }

  lemma RisingBelow(es: seq<Entry>, n: nat, base: nat)
    requires Rising(es) && n <= |es| && (n > 0 ==> es[n - 1].offset < base)
    ensures forall k :: 0 <= k < n ==> es[k].offset < base
  {
  }

  lemma BeforeAll(es: seq<Entry>, base: nat)
    requires forall e :: e in es ==> e.offset < base
    ensures Before(es, base) == es
  {
    if es != [] {
      BeforeAll(es[..|es| - 1], base);
      assert es == es[..|es| - 1] + [es[|es| - 1]];
    }
  }

  lemma RisingPrefix(r: seq<Entry>, es: seq<Entry>)
    requires Rising(es) && r <= es
    ensures Rising(r)
  {
  }

  /** Undoing an append: the output is cut back, and the records with it. */
  lemma CoreUndone(buf: seq<byte>, base: nat, marks: set<nat>, kept: set<nat>, done: Ledger,
                   strings: seq<Entry>, classes: seq<Entry>, mode: Mode)
    requires Core(buf, base, marks, kept, done, strings, classes, mode)
    ensures Core(buf[..base], base, kept, kept, done, Before(strings, base), Before(classes, base), mode)
  {
    var cut := buf[..base];
    KeepTags(buf, cut, base, kept);
    hide Scan;
    DocsStable(done.docs, buf, cut, kept, mode);
    EntriesStable(Before(strings, base), buf, cut, kept, kept);
    EntriesStable(Before(classes, base), buf, cut, kept, kept);
    BeforeMembers(strings, base);
    BeforeMembers(classes, base);
    BeforeAll(Before(strings, base), base);
    BeforeAll(Before(classes, base), base);
    assert cut[..FIRST] == buf[..FIRST];
    forall x | x in kept && Scan(cut, x).Some?
      ensures Tracked(Scan(cut, x).value.0, cut, kept) && Backward(Scan(cut, x).value.0, x)
    {
      KeptTarget(buf, base, marks, kept, done, strings, classes, mode, x);
    }
  }

  /** The links of merged documents point into merged documents. */
  lemma KeptTarget(buf: seq<byte>, base: nat, marks: set<nat>, kept: set<nat>, done: Ledger,
                   strings: seq<Entry>, classes: seq<Entry>, mode: Mode, x: nat)
    requires Core(buf, base, marks, kept, done, strings, classes, mode) && x in kept
    requires Scan(buf, x).Some?
    ensures Tracked(Scan(buf, x).value.0, buf[..base], kept) && Backward(Scan(buf, x).value.0, x)
  {
    assert Tracked(Scan(buf, x).value.0, buf, marks) && Backward(Scan(buf, x).value.0, x);
  }

  function LinkList(t: Token): (s: seq<nat>) {
    if t.Copy? || t.Refer? || t.Alias? || t.ObjectV? then [t.target] else []
  }

  predicate Linkless(tag: int) {
    IsLeaf(tag) || tag >= SHORT_BINARY || tag == BINARY || tag == STR_UTF8 || IsGroup(tag) || tag == REFN || tag == WEAKEN
    || tag == PAD || tag == OBJECT || tag == OBJECT_FREEZE || tag == EXTEND || tag == REGEXP
  }

  lemma LinklessScan(b: seq<byte>, p: nat)
    requires p < |b| && Linkless(b[p] % HIGH)
    ensures Scan(b, p).Some? ==> LinkList(Scan(b, p).value.0) == []
    ensures b[p] % HIGH == OBJECT || b[p] % HIGH == OBJECT_FREEZE ==> Scan(b, p).Some? && Scan(b, p).value.1 == p + 1
  {
  }

  lemma EndTargets(b: seq<byte>, p: nat)
    requires p >= |b|
    ensures Targets(b, p) == {}
  {
  }

  lemma NextTargets(b: seq<byte>, p: nat)
    ensures Scan(b, p).None? ==> Targets(b, p) == {}
    ensures Scan(b, p).Some? ==>
      forall x :: x in Targets(b, p) <==> x in LinkList(Scan(b, p).value.0) || x in Targets(b, Scan(b, p).value.1)
  {
    hide Scan;
  }

  /** A tag with an offset takes two bytes at least. */
  lemma LinkWide(b: seq<byte>, p: nat)
    requires Scan(b, p).Some?
    ensures 2 * |LinkList(Scan(b, p).value.0)| <= Scan(b, p).value.1 - p
  {
  }

  /** In a sound document no offset points ahead. */
  lemma SoundOffset(b: seq<byte>, p: nat)
    requires Path(b, 1, p)
    ensures Sound(b) && Scan(b, p).Some? && LinkList(Scan(b, p).value.0) != [] ==>
      LinkList(Scan(b, p).value.0)[0] < Scan(b, p).value.1
  {
    if Sound(b) && Scan(b, p).Some? {
      assert TagSound(b, p);
    }
  }

  /** Before the first document. */
  lemma CoreEmpty(mode: Mode)
    ensures Core(PRELUDE, FIRST, {}, {}, Ledger(PRELUDE, []), [], [], mode)
  {
    assert PRELUDE[..FIRST] == PRELUDE;
  }

  /** A document about to be merged. */
  lemma CurrentStart(inp: seq<byte>, buf: seq<byte>, marks: set<nat>, kept: set<nat>, done: Ledger,
                     strings: seq<Entry>, classes: seq<Entry>, mode: Mode, tracked: seq<nat>, table: map<nat, nat>)
    requires Core(buf, |buf|, marks, kept, done, strings, classes, mode)
    requires Sound(inp) && 1 <= |inp| && |buf| + GROWTH * |inp| < WORD
    requires forall e :: e in strings || e in classes ==> e.offset < |buf|
    requires StrictlyDown(tracked) && forall x :: x in tracked <==> x in Targets(inp, 1)
    ensures Current(inp, 1, 1, buf, |buf|, marks, map[1 := |buf|], map[], strings, classes, mode)
    ensures StackOk(1, 1, tracked, table, map[], Targets(inp, 1))
  {
    hide Scan, Path, Sound, Targets, DocsOk, Flagged;
    MappedStart(inp, buf, marks);
    BeforeAll(strings, |buf|);
    BeforeAll(classes, |buf|);
    EntriesStable(strings, buf, buf, kept, marks);
    EntriesStable(classes, buf, buf, kept, marks);
    forall k | 0 <= k < |tracked|
      ensures tracked[k] in Targets(inp, 1) && 1 <= tracked[k]
    {
      PathSelf(inp, 1);
      TargetsSound(inp, 1, tracked[k]);
    }
    forall x | x in Targets(inp, 1)
      ensures 1 <= x
    {
      PathSelf(inp, 1);
      TargetsSound(inp, 1, x);
    }
  }

  lemma CurrentSize(inp: seq<byte>, at: nat, i: nat, buf: seq<byte>, base: nat, marks: set<nat>, m: map<nat, nat>, img: map<nat, nat>,
                    strings: seq<Entry>, classes: seq<Entry>, mode: Mode)
    requires Current(inp, at, i, buf, base, marks, m, img, strings, classes, mode)
    ensures |buf| <= base + GROWTH * |inp|
  {
    hide Scan, Path, Local, Sound;
    CurrentAt(inp, at, i, buf, base, marks, m, img, strings, classes, mode);
  }

  lemma MappedStart(inp: seq<byte>, buf: seq<byte>, marks: set<nat>)
    ensures Mapped(inp, 1, buf, marks, map[1 := |buf|], map[])
  {
    PathSelf(inp, 1);
  }

  /** A document merged to its end joins those before it. */
  lemma CoreDone(part: Piece, inp: seq<byte>, at: nat, e: nat, buf: seq<byte>, base: nat, marks: set<nat>, kept: set<nat>, done: Ledger,
                 m: map<nat, nat>, img: map<nat, nat>, strings: seq<Entry>, classes: seq<Entry>, mode: Mode)
    requires Core(buf, base, marks, kept, done, strings, classes, mode)
    requires Current(inp, at, e, buf, base, marks, m, img, strings, classes, mode)
    requires part.inp == inp && part.at == at
    requires forall s :: s in strings || s in classes ==> s.offset < |buf|
    ensures Core(buf, |buf|, marks, marks, Ledger(buf, done.docs + [Doc(part, e, m, img)]), strings, classes, mode)
  {
    hide Scan, Path, Local;
    var docs := done.docs + [Doc(part, e, m, img)];
    forall k | 0 <= k < |docs|
      ensures DocOk(docs, k, buf, marks, mode)
    {
      if k < |done.docs| {
        assert DocOk(done.docs, k, buf, kept, mode);
        var d := docs[k];
        MappedStable(d.part.inp, d.end, buf, buf, kept, marks, d.m, d.img);
        assert Start(docs, k) == Start(done.docs, k);
      } else {
        assert Start(docs, k) == Start(done.docs, k);
      }
    }
    BeforeAll(strings, |buf|);
    BeforeAll(classes, |buf|);
    forall x | x in marks
      ensures x < |buf| && Scan(buf, x).Some? && Scan(buf, x).value.1 <= |buf|
    {
    }
  }
}
