/** The state of the Go merger's loop: counters that say what is still owed, and one step of the translation. */
module GoMergeState {
  import opened Varint
  import opened VarintIO
  import opened Wire
  import opened Mapping
  import opened MergerState
  import opened MergerResult
  import opened Faults

  // ----- frames -----

  /** The bit of a counter that says keys and values are being counted. */
  const KEYS := 0x8000_0000

  /** What a counter stands for: that many items or, with the bit set, keys and values in turn, a key being
      due exactly when an even number is left. */
  function Frame(c: nat): (w: seq<Want>)
    ensures |w| == c % KEYS
  {
    var n := c % KEYS;
    if c >= KEYS then seq(n, k requires 0 <= k < n => if (n - k) % 2 == 0 then Key else Item) else Items(n)
  }

  /** What the whole stack stands for, the top frame first. */
  function Todo(stack: seq<nat>): seq<Want> {
    if stack == [] then [] else Frame(stack[|stack| - 1]) + Todo(stack[..|stack| - 1])
  }

  /** Is a key due next? */
  predicate KeyNext(c: nat) {
    c >= KEYS && c % 2 == 0
  }

  lemma FrameNext(c: nat)
    requires c % KEYS > 0
    ensures Frame(c) == [if KeyNext(c) then Key else Item] + Frame(c - 1)
  {
    var n := c % KEYS;
    assert (c - 1) % KEYS == n - 1;
    assert c != KEYS;
    var l, r := Frame(c), [if KeyNext(c) then Key else Item] + Frame(c - 1);
    assert c % 2 == n % 2 by {
      assert c == KEYS * (c / KEYS) + n;
    }
    forall k | 0 <= k < n
      ensures l[k] == r[k]
    {
    }
  }

  lemma FrameHash(n: nat)
    requires 2 * n < KEYS
    ensures Frame(2 * n + KEYS) == Pairs(n)
  {
    var c := 2 * n + KEYS;
    assert c % KEYS == 2 * n;
    var l, r := Frame(c), Pairs(n);
    forall k | 0 <= k < 2 * n
      ensures l[k] == r[k]
    {
      EvenLeft(n, k);
      assert l[k] == (if (2 * n - k) % 2 == 0 then Key else Item);
    }
  }

  lemma EvenLeft(n: nat, k: nat)
    requires k < 2 * n
    ensures (2 * n - k) % 2 == k % 2
  {
  }

  lemma FrameItems(n: nat)
    requires n < KEYS
    ensures Frame(n) == Items(n)
  {
  }

  /** One fewer item is owed by the frame on top of the stack; behind it, `c` opens a frame of its own. */
  lemma TodoNext(rest: seq<nat>, top: nat, c: nat)
    requires top % KEYS > 0
    ensures Todo(rest + [top]) == [if KeyNext(top) then Key else Item] + Todo(rest + [top - 1])
    ensures Todo(rest + [top - 1] + [c]) == Frame(c) + Todo(rest + [top - 1])
  {
    hide Todo, KeyNext;
    FrameNext(top);
    hide Frame;
    TodoPush(rest, top - 1);
    TodoPush(rest + [top - 1], c);
    TodoPush(rest, top);
    Regroup([if KeyNext(top) then Key else Item], Frame(top - 1), Todo(rest));
  }

  lemma Regroup<T>(a: seq<T>, b: seq<T>, c: seq<T>)
    ensures (a + b) + c == a + (b + c)
  {
  }

  lemma TodoPush(stack: seq<nat>, c: nat)
    ensures Todo(stack + [c]) == Frame(c) + Todo(stack)
  {
    hide Frame;
    assert (stack + [c])[..|stack|] == stack;
  }

  lemma TodoEmpty(rest: seq<nat>, top: nat)
    requires top % KEYS == 0
    ensures Todo(rest + [top]) == Todo(rest)
  {
    TodoPush(rest, top);
    assert Frame(top) == [];
    assert [] + Todo(rest) == Todo(rest);
  }

  // ----- the documents -----

  /** Longer strings are refused. */
  const MAX_STRING := 0xFFFF_FFFF

  /** Where the items that are asked for begin, and how many there are: those of the array on top if it is to
      be kept flat, else the document itself.  None stands for what goes wrong there. */
  function Header(doc: seq<byte>, flat: bool): Option<(nat, nat)> {
    if !flat then Some((1, 1))
    else if |doc| < 3 then None
    else
      var tag0, tag1 := doc[1] % HIGH, doc[2] % HIGH;
      if tag0 == REFN && tag1 == ARRAY then
        match Read(doc, 3)
        case None => None
        case Some((n, q)) => if n <= MAX_STRING then Some((q, n)) else None
      else if ARRAYREF <= tag0 < HASHREF then Some((2, tag0 - ARRAYREF))
      else Some((1, 1))
  }

  /** The tags of the second pass, as far as it goes. */
  ghost predicate Met(doc: seq<byte>, flat: bool, q: nat) {
    && Header(doc, flat).Some?
    && var (at, n) := Header(doc, flat).value;
    && Path(doc, 1, q) && at <= q && Walk(doc, at, Items(n)).Some? && q < Walk(doc, at, Items(n)).value.0
  }

  /** The string at q is the class name of an object. */
  ghost predicate NameAt(doc: seq<byte>, q: nat) {
    0 < q && Path(doc, 1, q - 1) && Scan(doc, q - 1).Some? && IsObject(Scan(doc, q - 1).value.0)
  }

  /** What the Go merger can take: sound links, no REFP, ALIAS or OBJECTV; class names spelled out, and not as
      empty short strings; hashes of fewer than 2^30 pairs.  The tags need not fill their places. */
  ghost predicate TagTakeable(doc: seq<byte>, q: nat)
    requires Scan(doc, q).Some?
  {
    var (t, next) := Scan(doc, q).value;
    && !t.Refer? && !t.Alias? && !t.ObjectV?
    && (t.Text? ==> |t.content| <= MAX_STRING)
    && (t.Open? && t.tag == HASH ==> 2 * t.count < KEYS)
    && (IsObject(t) ==> TextAt(doc, next) && doc[next] % HIGH != SHORT_BINARY)
  }

  ghost predicate Takeable(doc: seq<byte>, flat: bool) {
    && Sound(doc) && 1 <= |doc| && Header(doc, flat).Some?
    && var (at, n) := Header(doc, flat).value;
    && n < KEYS && Path(doc, 1, at) && Walk(doc, at, Items(n)).Some?
    && forall q :: Path(doc, 1, q) && Scan(doc, q).Some? ==> TagTakeable(doc, q)
  }

  /** Reading from p to fill `todo` comes to q when a key is due. */
  ghost predicate KeyDue(b: seq<byte>, p: nat, todo: seq<Want>, q: nat)
    decreases |b| - p
  {
    && todo != [] && Scan(b, p).Some? && !Scan(b, p).value.0.Other?
    && ((p == q && todo[0] == Key) || KeyDue(b, Scan(b, p).value.1, Behind(Scan(b, p).value.0, todo), q))
  }

  /** Short strings of at most one byte are never deduplicated. */
  predicate Long(tag: nat) {
    tag != 96 && tag != 97
  }

  /** The string at q is looked up among those met before: a key, or any if all are deduplicated. */
  ghost predicate Looked(doc: seq<byte>, flat: bool, all: bool, q: nat) {
    && Met(doc, flat, q) && TextAt(doc, q) && Long(doc[q] % HIGH) && !NameAt(doc, q)
    && (all || KeyDue(doc, Header(doc, flat).value.0, Items(Header(doc, flat).value.1), q))
  }

  ghost predicate NameMet(doc: seq<byte>, flat: bool, q: nat) {
    Met(doc, flat, q) && TextAt(doc, q) && NameAt(doc, q)
  }

  /** Strings that are looked up in the same table and have the same bytes have the same form. */
  ghost predicate FormsAgree(docs: set<seq<byte>>, flat: bool, all: bool) {
    && (forall c, d, p, q :: c in docs && d in docs && Looked(c, flat, all, p) && Looked(d, flat, all, q) ==> Alike(c, p, d, q))
    && (forall c, d, p, q :: c in docs && d in docs && NameMet(c, flat, p) && NameMet(d, flat, q) ==> Alike(c, p, d, q))
  }

  /** Strings of the same bytes are in the same form. */
  ghost predicate Alike(c: seq<byte>, p: nat, d: seq<byte>, q: nat)
    requires TextAt(c, p) && TextAt(d, q)
  {
    Scan(c, p).value.0.content == Scan(d, q).value.0.content ==> Scan(c, p).value.0 == Scan(d, q).value.0
  }

  /** The tags in front of the items that are asked for. */
  lemma HeaderTags(doc: seq<byte>)
    requires Header(doc, true).Some? && Header(doc, true).value.1 <= MAX_COUNT && 2 <= |doc|
    ensures var (at, n) := Header(doc, true).value;
            || (at == 1 && n == 1)
            || (Scan(doc, 1) == Some((Open(ARRAYREF, n), 2)) && at == 2)
            || (Scan(doc, 1) == Some((Open(REFN, 0), 2)) && Scan(doc, 2) == Some((Open(ARRAY, n), at)))
  {
    OpenScan(doc, 1);
    OpenScan(doc, 2);
    hide Read;
  }

  /** The items asked for are what the document is made of. */
  lemma HeaderParse(doc: seq<byte>, flat: bool)
    requires Header(doc, flat).Some? && Header(doc, flat).value.1 <= MAX_COUNT
    ensures var (at, n) := Header(doc, flat).value; Parse(doc, 1, [Item]) == Parse(doc, at, Items(n))
  {
    hide Scan;
    assert Items(1) == [Item];
    if flat {
      HeaderTags(doc);
      hide Header, Wants, Parse;
      ParseItem(doc, 1);
      ParseItem(doc, 2);
      HeaderWants(Header(doc, true).value.1);
    }
  }

  /** In figures: a well-formed document has a header, and is asked for flat, exactly when it has two bytes
      behind the first; an array on top is the tag 43 behind 40, or one of the tags from 64 to 79. */
  lemma HeaderIs(doc: seq<byte>, flat: bool)
    requires Parse(doc, 1, [Item]).Some?
    ensures !flat ==> Header(doc, flat) == Some((1, 1))
    ensures flat ==> (Header(doc, flat).Some? <==> 3 <= |doc|)
    ensures flat && 3 <= |doc| ==>
      if doc[1] % 128 == 40 && doc[2] % 128 == 43 then
        Read(doc, 3).Some? && Header(doc, flat) == Some((Read(doc, 3).value.1, Read(doc, 3).value.0))
      else if 64 <= doc[1] % 128 < 80 then Header(doc, flat) == Some((2, doc[1] % 128 - 64))
      else Header(doc, flat) == Some((1, 1))
    ensures Header(doc, flat).Some? ==>
      var (at, n) := Header(doc, flat).value; n <= MAX_COUNT && Path(doc, 1, at) && Walk(doc, at, Items(n)).Some?
  {
    PathSelf(doc, 1);
    if flat && 3 <= |doc| && doc[1] % 128 == 40 && doc[2] % 128 == 43 {
      NestedCount(doc);
    }
    if Header(doc, flat).Some? {
      HeaderParse(doc, flat);
      var (at, n) := Header(doc, flat).value;
      ParseWalk(doc, at, Items(n));
      if flat {
        HeaderTags(doc);
        hide Scan, Parse, Walk, Header, Read;
        PathTo(doc, 1, at);
        PathTo(doc, 2, at);
        PathSelf(doc, at);
      }
    }
  }

  /** A well-formed array behind a reference has a count. */
  lemma NestedCount(doc: seq<byte>)
    requires 3 <= |doc| && doc[1] % HIGH == REFN && doc[2] % HIGH == ARRAY && Parse(doc, 1, [Item]).Some?
    ensures Read(doc, 3).Some? && Read(doc, 3).value.0 <= MAX_COUNT
  {
    OpenScan(doc, 1);
    OpenScan(doc, 2);
    ParseItem(doc, 1);
    ParseItem(doc, 2);
    hide Scan, Read, Parse;
    HeaderWants(0);
  }

  /** A well-formed document can be taken exactly when its links are sound, each of its tags can be taken, and,
      if it is to be kept flat, there are two bytes to look at. */
  lemma TakeableWhen(doc: seq<byte>, flat: bool)
    requires Parse(doc, 1, [Item]).Some?
    ensures Takeable(doc, flat) <==>
      Sound(doc) && (flat ==> 3 <= |doc|) && forall q :: Path(doc, 1, q) && Scan(doc, q).Some? ==> TagTakeable(doc, q)
  {
    HeaderIs(doc, flat);
    hide Scan, Path, Parse, Walk, Header, TagTakeable, Sound, Read;
  }

  lemma HeaderWants(n: nat)
    ensures Wants(Open(ARRAYREF, n)) == Items(n) && Wants(Open(ARRAY, n)) == Items(n) && Wants(Open(REFN, 0)) == [Item]
  {
  }

  lemma NoneBefore(b: seq<byte>)
    ensures !Path(b, 1, 0)
  {
    if Path(b, 1, 0) {
      PathOrder(b, 1, 0);
    }
  }

  lemma HeaderName(doc: seq<byte>, flat: bool)
    requires Header(doc, flat).Some? && Header(doc, flat).value.1 <= MAX_COUNT
    ensures !NameAt(doc, Header(doc, flat).value.0)
  {
    hide Scan, Path;
    PathSelf(doc, 1);
    NoneBefore(doc);
    if flat {
      HeaderTags(doc);
      var (at, n) := Header(doc, true).value;
      hide Header;
      HeaderWants(n);
      hide Wants;
      if Scan(doc, 1).Some? {
        PathStep(doc, 1, 1);
      }
      if at == 2 && Scan(doc, 1) == Some((Open(ARRAYREF, n), 2)) {
        NameNext(doc, 1, 2, Some(Items(n)));
      } else if at != 1 {
        NameNext(doc, 2, at, Some(Items(n)));
      }
    }
  }

  // ----- one step of the translation -----

  /** The output and the document in hand, translated from `at` up to i. */
  ghost predicate State(inp: seq<byte>, at: nat, i: nat, buf: seq<byte>, base: nat, marks: set<nat>, kept: set<nat>, done: Ledger,
                        m: map<nat, nat>, img: map<nat, nat>) {
    && Core(buf, base, marks, kept, done, [], [], Loose)
    && Current(inp, at, i, buf, base, marks, m, img, [], [], Loose) && Spelled(inp, |inp|)
  }

  /** Where a string of a table was first met. */
  type Origin = (seq<byte>, nat)

  ghost predicate OriginOk(o: Origin, s: seq<byte>) {
    TextAt(o.0, o.1) && Scan(o.0, o.1).value.0.content == s
  }

  /** A table names strings of the output, each in the form in which it was first met. */
  ghost predicate TableOk(table: map<seq<byte>, nat>, from: map<seq<byte>, Origin>, buf: seq<byte>, marks: set<nat>) {
    && table.Keys == from.Keys
    && forall s :: s in table ==> EntryAt(table[s], from[s], s, buf, marks)
  }

  ghost predicate EntryAt(v: nat, o: Origin, s: seq<byte>, buf: seq<byte>, marks: set<nat>) {
    && v in marks && 0 < v && OriginOk(o, s) && Scan(buf, v).Some? && Scan(buf, v).value.0 == Scan(o.0, o.1).value.0
  }

  lemma TableKept(table: map<seq<byte>, nat>, from: map<seq<byte>, Origin>, was: seq<byte>, buf: seq<byte>,
                  marks: set<nat>, marks': set<nat>)
    requires TableOk(table, from, was, marks) && SameTags(was, buf, marks) && marks <= marks'
    ensures TableOk(table, from, buf, marks')
  {
    hide Scan;
    forall s | s in table
      ensures EntryAt(table[s], from[s], s, buf, marks')
    {
      assert EntryAt(table[s], from[s], s, was, marks);
    }
  }

  lemma TableMore(table: map<seq<byte>, nat>, from: map<seq<byte>, Origin>, buf: seq<byte>, marks: set<nat>,
                  s: seq<byte>, v: nat, o: Origin)
    requires TableOk(table, from, buf, marks) && EntryAt(v, o, s, buf, marks)
    ensures TableOk(table[s := v], from[s := o], buf, marks)
  {
    hide Scan, EntryAt;
    var more, origins := table[s := v], from[s := o];
    forall x | x in more
      ensures EntryAt(more[x], origins[x], x, buf, marks)
    {
      assert x != s ==> EntryAt(table[x], from[x], x, buf, marks);
    }
  }

  lemma StateAt(inp: seq<byte>, at: nat, i: nat, buf: seq<byte>, base: nat, marks: set<nat>, kept: set<nat>, done: Ledger,
                m: map<nat, nat>, img: map<nat, nat>)
    requires State(inp, at, i, buf, base, marks, kept, done, m, img)
    ensures 1 <= at <= i <= |inp| && Path(inp, 1, i) && i in m && m[i] == |buf| && 0 < |buf| < WORD && Sound(inp)
    ensures forall x :: x in img ==> at <= x < i && img[x] in marks
    ensures forall x :: at <= x < i && Path(inp, 1, x) && !BorrowedAt(inp, x) ==> x in img
    ensures forall x :: x in marks ==> 0 < x < |buf| && Scan(buf, x).Some? && Scan(buf, x).value.1 <= |buf|
    ensures |inp| <= IV_MAX
  {
    CurrentAt(inp, at, i, buf, base, marks, m, img, [], [], Loose);
    CoreMarks(buf, buf, base, marks, kept, done, [], [], Loose);
    hide Scan, Path, Mapped, Sound, DocsOk, Flagged, BorrowedAt;
  }

  lemma StateStart(inp: seq<byte>, at: nat, buf: seq<byte>, marks: set<nat>, done: Ledger)
    requires Core(buf, |buf|, marks, marks, done, [], [], Loose)
    requires Sound(inp) && 1 <= |inp| && |buf| + GROWTH * |inp| < WORD && Path(inp, 1, at) && 1 <= at && Spelled(inp, |inp|)
    ensures State(inp, at, at, buf, |buf|, marks, marks, done, map[at := |buf|], map[])
  {
    hide Scan, Path, Sound, Core;
    NoEntries(buf, marks);
  }

  /** The common end: the tag at i became the tag at the end of `was`, and offsets that named it name v. */
  lemma StepAny(inp: seq<byte>, at: nat, i: nat, was: seq<byte>, buf: seq<byte>, base: nat, marks: set<nat>, kept: set<nat>, done: Ledger,
                m: map<nat, nat>, img: map<nat, nat>, v: nat)
    requires State(inp, at, i, was, base, marks, kept, done, m, img)
    requires Scan(inp, i).Some? && !IsObject(Scan(inp, i).value.0)
    requires FlagsOnly(was, buf, |was|, marks)
    requires Scan(buf, |was|).Some? && Tracked(Scan(buf, |was|).value.0, buf, marks)
    requires var q := Scan(inp, i).value.1;
             && Local(inp, i, buf, marks + {|was|}, m[q := |buf|], img[i := v])
             && ImageOf(inp, i, buf, marks + {|was|}, m[q := |buf|], v)
             && |buf| <= |was| + GROWTH * (q - i)
    ensures SameTags(was, buf, marks)
    ensures State(inp, at, Scan(inp, i).value.1, buf, base, marks + {|was|}, kept, done, m[Scan(inp, i).value.1 := |buf|], img[i := v])
  {
    hide Scan, Path, Local, ImageOf, Mapped, FlagsOnly, Tracked, IsObject, Core, Current;
    CoreGrows(was, buf, base, marks, kept, done, [], [], Loose);
    NoEntries(buf, marks + {|was|});
    CurrentStep(inp, at, i, was, buf, base, marks, m, img, v, [], [], [], [], Loose);
  }

  lemma NoEntries(buf: seq<byte>, marks: set<nat>)
    ensures Entries([], buf, marks)
  {
  }

  /** A tag without children of its own kind, or a container's tag, copied as it is. */
  lemma StepCopied(inp: seq<byte>, at: nat, i: nat, was: seq<byte>, buf: seq<byte>, base: nat, marks: set<nat>, kept: set<nat>, done: Ledger,
                   m: map<nat, nat>, img: map<nat, nat>)
    requires State(inp, at, i, was, base, marks, kept, done, m, img)
    requires Scan(inp, i).Some? && Plain(Scan(inp, i).value.0) && buf == was + inp[i..Scan(inp, i).value.1]
    ensures SameTags(was, buf, marks) && Scan(buf, |was|) == Some((Scan(inp, i).value.0, |buf|))
    ensures var q := Scan(inp, i).value.1;
            State(inp, at, q, buf, base, marks + {|was|}, kept, done, m[q := |buf|], img[i := |was|])
  {
    hide Path, Local, ImageOf, Mapped, FlagsOnly, Core, Current, Copied;
    StateAt(inp, at, i, was, base, marks, kept, done, m, img);
    CopiedHere(inp, i, Scan(inp, i).value.1, was, buf);
    CopiedScan(inp, i, Scan(inp, i).value.1, was, buf, marks);
    hide Scan;
    PlainLocal(inp, i, buf, marks + {|was|}, m[Scan(inp, i).value.1 := |buf|], img[i := |was|]);
    StepAny(inp, at, i, was, buf, base, marks, kept, done, m, img, |was|);
  }

  /** A string written as a COPY of an equal one at v. */
  lemma StepDeduped(inp: seq<byte>, at: nat, i: nat, was: seq<byte>, buf: seq<byte>, base: nat, marks: set<nat>, kept: set<nat>, done: Ledger,
                    m: map<nat, nat>, img: map<nat, nat>, v: nat)
    requires State(inp, at, i, was, base, marks, kept, done, m, img)
    requires TextAt(inp, i) && TextTwin(Scan(inp, i).value.0, was, v, |was|, marks) && buf == was + [COPY] + Write(v)
    ensures SameTags(was, buf, marks)
    ensures var q := Scan(inp, i).value.1;
            State(inp, at, q, buf, base, marks + {|was|}, kept, done, m[q := |buf|], img[i := v])
  {
    hide Path, Local, ImageOf, Mapped, Core, Current;
    StateAt(inp, at, i, was, base, marks, kept, done, m, img);
    FlagsSame(buf, marks);
    WrittenScan(was, COPY, v, buf, marks);
    CoreTags(was, buf, base, marks, kept, done, [], [], Loose);
    hide Scan;
    DedupedLocal(inp, i, buf, marks + {|was|}, m[Scan(inp, i).value.1 := |buf|], img[i := v]);
    StepAny(inp, at, i, was, buf, base, marks, kept, done, m, img, v);
  }

  lemma FlagsSame(buf: seq<byte>, marks: set<nat>)
    ensures FlagsOnly(buf, buf, |buf|, marks)
  {
  }

  /** A COPY of the image of its target, with or without the track flag. */
  lemma StepLink(inp: seq<byte>, at: nat, i: nat, was: seq<byte>, buf: seq<byte>, base: nat, marks: set<nat>, kept: set<nat>, done: Ledger,
                 m: map<nat, nat>, img: map<nat, nat>, h: byte, v: nat)
    requires State(inp, at, i, was, base, marks, kept, done, m, img)
    requires Scan(inp, i).Some? && Scan(inp, i).value.0.Copy? && h % HIGH == COPY
    requires Scan(inp, i).value.0.target in img && img[Scan(inp, i).value.0.target] == v
    requires buf == was + [h] + Write(v) && v < |was|
    ensures SameTags(was, buf, marks)
    ensures var q := Scan(inp, i).value.1;
            State(inp, at, q, buf, base, marks + {|was|}, kept, done, m[q := |buf|], img[i := |was|])
  {
    hide Path, Local, ImageOf, Mapped, Core, Current;
    StateAt(inp, at, i, was, base, marks, kept, done, m, img);
    FlagsSame(buf, marks);
    CopyScan(was, buf, h, v);
    assert FlagsOnly(was, buf, |was|, marks) by {
      assert buf[..|was|] == was;
    }
    CopyWide(inp, i);
    hide Scan;
    LinkLocal(inp, i, buf, marks + {|was|}, m[Scan(inp, i).value.1 := |buf|], img[i := |was|]);
    StepAny(inp, at, i, was, buf, base, marks, kept, done, m, img, |was|);
  }

  lemma CopyWide(b: seq<byte>, p: nat)
    requires Scan(b, p).Some? && Scan(b, p).value.0.Copy?
    ensures Scan(b, p).value.1 >= p + 2
  {
  }

  lemma CopyScan(was: seq<byte>, buf: seq<byte>, h: byte, v: nat)
    requires v < WORD && h % HIGH == COPY && buf == was + [h] + Write(v)
    ensures Scan(buf, |was|) == Some((Copy(v), |buf|)) && |buf| <= |was| + 11
  {
    var plain := was + [COPY] + Write(v);
    assert plain[|was|..] == [COPY] + Write(v);
    ScanWritten(plain, |was|, COPY, v);
    hide Scan;
    assert plain[|was| + 1..|buf|] == buf[|was| + 1..|buf|];
    ScanShift(plain, |was|, buf, |was|);
  }

  // ----- objects -----

  /** The common end: the tag at the end of `was`, and whatever was written behind it, stand for the object at
      i and its class name. */
  lemma StepObject(inp: seq<byte>, at: nat, i: nat, was: seq<byte>, buf: seq<byte>, base: nat, marks: set<nat>, marks': set<nat>,
                   kept: set<nat>, done: Ledger, m: map<nat, nat>, img: map<nat, nat>, v: nat)
    requires State(inp, at, i, was, base, marks, kept, done, m, img) && Core(buf, base, marks', kept, done, [], [], Loose)
    requires SameTags(was, buf, marks) && marks + {|was|} <= marks'
    requires Scan(inp, i).Some? && IsObject(Scan(inp, i).value.0) && TextAt(inp, i + 1) && Scan(inp, i).value.1 == i + 1
    requires var e := Scan(inp, i + 1).value.1;
             && Local(inp, i, buf, marks', m[e := |buf|], img[i := |was|][i + 1 := v])
             && ImageOf(inp, i, buf, marks', m[e := |buf|], |was|)
             && ImageOf(inp, i + 1, buf, marks', m[e := |buf|], v)
             && |buf| <= |was| + GROWTH * (e - i)
    ensures var e := Scan(inp, i + 1).value.1;
            State(inp, at, e, buf, base, marks', kept, done, m[e := |buf|], img[i := |was|][i + 1 := v])
  {
    hide Scan, Path, Local, ImageOf, Mapped, IsObject, Core, Current;
    NoEntries(buf, marks');
    CurrentStepObject(inp, at, i, was, buf, base, marks, marks', m, img, v, [], [], [], [], Loose);
  }

  lemma StepObjectCopied(inp: seq<byte>, at: nat, i: nat, was: seq<byte>, buf: seq<byte>, base: nat, marks: set<nat>, kept: set<nat>,
                         done: Ledger, m: map<nat, nat>, img: map<nat, nat>)
    requires State(inp, at, i, was, base, marks, kept, done, m, img)
    requires Scan(inp, i).Some? && IsObject(Scan(inp, i).value.0) && TextAt(inp, i + 1) && Scan(inp, i).value.1 == i + 1
    requires buf == was + inp[i..Scan(inp, i + 1).value.1]
    ensures SameTags(was, buf, marks) && Scan(buf, |was| + 1).Some? && Scan(buf, |was| + 1).value.0 == Scan(inp, i + 1).value.0
    ensures var e := Scan(inp, i + 1).value.1;
            State(inp, at, e, buf, base, marks + {|was|} + {|was| + 1}, kept, done, m[e := |buf|], img[i := |was|][i + 1 := |was| + 1])
  {
    hide Path, Local, ImageOf, Mapped, Core, Current, Copied, FlagsOnly;
    var e := Scan(inp, i + 1).value.1;
    var was1 := was + inp[i..i + 1];
    StateAt(inp, at, i, was, base, marks, kept, done, m, img);
    CopiedHere(inp, i, i + 1, was, was1);
    CopiedScan(inp, i, i + 1, was, was1, marks);
    CoreGrows(was, was1, base, marks, kept, done, [], [], Loose);
    var marks1 := marks + {|was|};
    assert buf == was1 + inp[i + 1..e] by {
      assert inp[i..e] == inp[i..i + 1] + inp[i + 1..e];
    }
    CopiedHere(inp, i + 1, e, was1, buf);
    CopiedScan(inp, i + 1, e, was1, buf, marks1);
    CoreGrows(was1, buf, base, marks1, kept, done, [], [], Loose);
    hide Scan;
    ObjectLocal(inp, i, buf, marks1 + {|was1|}, m[e := |buf|], img[i := |was|][i + 1 := |was1|]);
    StepObject(inp, at, i, was, buf, base, marks, marks1 + {|was1|}, kept, done, m, img, |was1|);
  }

  lemma StepObjectDeduped(inp: seq<byte>, at: nat, i: nat, was: seq<byte>, buf: seq<byte>, base: nat, marks: set<nat>, kept: set<nat>,
                          done: Ledger, m: map<nat, nat>, img: map<nat, nat>, v: nat)
    requires State(inp, at, i, was, base, marks, kept, done, m, img)
    requires Scan(inp, i).Some? && IsObject(Scan(inp, i).value.0) && TextAt(inp, i + 1) && Scan(inp, i).value.1 == i + 1
    requires TextTwin(Scan(inp, i + 1).value.0, was, v, |was|, marks)
    requires buf == was + [if Scan(inp, i).value.0.tag == OBJECT then OBJECTV else OBJECTV_FREEZE] + Write(v)
    ensures SameTags(was, buf, marks)
    ensures var e := Scan(inp, i + 1).value.1;
            State(inp, at, e, buf, base, marks + {|was|}, kept, done, m[e := |buf|], img[i := |was|][i + 1 := v])
  {
    hide Path, Local, ImageOf, Mapped, Core, Current;
    var e := Scan(inp, i + 1).value.1;
    StateAt(inp, at, i, was, base, marks, kept, done, m, img);
    FlagsSame(buf, marks);
    WrittenScan(was, if Scan(inp, i).value.0.tag == OBJECT then OBJECTV else OBJECTV_FREEZE, v, buf, marks);
    hide Scan;
    CoreGrows(was, buf, base, marks, kept, done, [], [], Loose);
    ObjectLocal(inp, i, buf, marks + {|was|}, m[e := |buf|], img[i := |was|][i + 1 := v]);
    StepObject(inp, at, i, was, buf, base, marks, marks + {|was|}, kept, done, m, img, v);
  }

  // ----- the track table -----

  /** The offsets the first pass notes: where links lead, and where tags carry the track flag. */
  ghost function Noted(b: seq<byte>, p: nat): (s: set<nat>)
    decreases |b| - p
  {
    match Scan(b, p)
    case None => {}
    case Some((t, q)) => Links(t) + (if b[p] >= HIGH then {p} else {}) + Noted(b, q)
  }

  /** What the table says of a tag already met is right. */
  ghost predicate TraceOk(inp: seq<byte>, table: map<nat, int>, img: map<nat, nat>) {
    forall x :: x in table && table[x] >= 0 && TextAt(inp, x) ==> x in img && img[x] == table[x]
  }

  lemma TraceKept(inp: seq<byte>, table: map<nat, int>, img: map<nat, nat>, img': map<nat, nat>)
    requires TraceOk(inp, table, img) && forall x :: x in img ==> x in img' && img'[x] == img[x]
    ensures TraceOk(inp, table, img')
  {
    hide TextAt;
  }

  /** The second pass never asks where it is at c: it begins behind it, or takes it together with its object. */
  ghost predicate Unasked(doc: seq<byte>, at: nat, c: nat) {
    c < at || NameAt(doc, c)
  }

  /** Something noted that is never asked for comes before x, or is x, and keeps x from being found. */
  ghost predicate Blocked(doc: seq<byte>, at: nat, x: nat) {
    exists c :: c in Noted(doc, 1) && c <= x && Unasked(doc, at, c)
  }

  /** Exactly what is noted and not blocked has been found if it was met; the rest is still to come, in
      rising order. */
  ghost predicate TraceAll(doc: seq<byte>, at: nat, i: nat, table: map<nat, int>, idxs: seq<nat>) {
    && (forall x :: x in table <==> x in Noted(doc, 1))
    && (forall x :: x in table ==> (table[x] >= 0 <==> x < i && !Blocked(doc, at, x)))
    && (forall j, k :: 0 <= j < k < |idxs| ==> idxs[j] < idxs[k])
    && (forall x :: x in idxs <==> x in table && (i <= x || Blocked(doc, at, x)))
  }

  predicate CopyAt(doc: seq<byte>, q: nat) {
    Scan(doc, q).Some? && Scan(doc, q).value.0.Copy?
  }

  /** No COPY follows its string immediately, which the first pass refuses. */
  ghost predicate AllFar(doc: seq<byte>) {
    forall q :: Path(doc, 1, q) && CopyAt(doc, q) ==> Far(doc, q)
  }

  /** The COPY at q has a blocked target, which the second pass does not find. */
  ghost predicate Barred(doc: seq<byte>, at: nat, q: nat) {
    CopyAt(doc, q) && Blocked(doc, at, Scan(doc, q).value.0.target)
  }

  /** There is none in front of i. */
  ghost predicate FreeTo(doc: seq<byte>, at: nat, i: nat) {
    forall q: nat :: Path(doc, 1, q) && at <= q < i ==> !Barred(doc, at, q)
  }

  /** What the two passes ask of a document they can take. */
  ghost predicate Traceable(doc: seq<byte>, flat: bool) {
    && AllFar(doc) && Header(doc, flat).Some?
    && forall q :: Met(doc, flat, q) ==> !Barred(doc, Header(doc, flat).value.0, q)
  }

  /** Exactly the COPY tags that are met decide about the second pass. */
  lemma FreeAll(doc: seq<byte>, flat: bool, e: nat)
    requires Header(doc, flat).Some?
    requires var (at, n) := Header(doc, flat).value; Walk(doc, at, Items(n)).Some? && Walk(doc, at, Items(n)).value.0 == e
    ensures AllFar(doc) ==> (Traceable(doc, flat) <==> FreeTo(doc, Header(doc, flat).value.0, e))
  {
    hide Scan, Path, Walk, Barred, AllFar;
  }

  /** Without a COPY both passes get through. */
  lemma NoCopies(doc: seq<byte>, flat: bool)
    requires Header(doc, flat).Some? && forall q :: Path(doc, 1, q) ==> !CopyAt(doc, q)
    ensures Traceable(doc, flat)
  {
    hide Scan, Path, Walk, Header, Far;
  }

  /** Without objects only a COPY right behind its string is in the way, if the document is not kept flat. */
  lemma NoObjects(doc: seq<byte>)
    requires forall q :: Path(doc, 1, q) && Scan(doc, q).Some? ==> !IsObject(Scan(doc, q).value.0)
    requires Sound(doc)
    ensures Traceable(doc, false) <==> forall q :: Path(doc, 1, q) && CopyAt(doc, q) ==> Scan(doc, q).value.0.target + 1 < q
  {
    hide Scan, Path, Walk;
    PathSelf(doc, 1);
    forall c | c in Noted(doc, 1)
      ensures 1 <= c
    {
      NotedPath(doc, 1, c);
    }
  }

  /** The second pass stops at q. */
  ghost predicate FirstBlocked(doc: seq<byte>, flat: bool, q: nat) {
    && Header(doc, flat).Some? && Met(doc, flat, q)
    && Barred(doc, Header(doc, flat).value.0, q) && FreeTo(doc, Header(doc, flat).value.0, q)
  }

  lemma NotTraceable(doc: seq<byte>, flat: bool)
    ensures Traceable(doc, flat) ==> AllFar(doc)
    ensures forall q :: FirstBlocked(doc, flat, q) ==> !Traceable(doc, flat)
  {
    hide Scan, Path, Met, Barred, AllFar, FreeTo, Header;
  }

  lemma FreeStart(doc: seq<byte>, at: nat)
    ensures FreeTo(doc, at, at)
  {
  }

  lemma FreeNext(doc: seq<byte>, at: nat, i: nat, j: nat, w: Option<seq<Want>>)
    requires FreeTo(doc, at, i) && Opened(doc, i, j, w) && Path(doc, 1, i)
    requires !Barred(doc, at, i)
    ensures FreeTo(doc, at, j)
  {
    ObjectWide(doc, i);
    hide Scan, Path, Blocked, Wants;
    PathStep(doc, 1, i);
    forall q: nat | Path(doc, 1, q) && i < q < j
      ensures !Barred(doc, at, q)
    {
      PathNoGap(doc, 1, i, q);
      var e := Scan(doc, i).value.1;
      if e < q {
        PathNoGap(doc, 1, e, q);
      }
    }
  }

  /** No COPY in front of i follows its string immediately. */
  ghost predicate FarTo(doc: seq<byte>, i: nat) {
    forall q: nat :: Path(doc, 1, q) && q < i && CopyAt(doc, q) ==> Far(doc, q)
  }

  lemma FarStart(doc: seq<byte>)
    ensures FarTo(doc, 1)
  {
    forall q: nat | Path(doc, 1, q)
      ensures q >= 1
    {
      PathOrder(doc, 1, q);
    }
  }

  lemma FarNext(doc: seq<byte>, i: nat)
    requires FarTo(doc, i) && Path(doc, 1, i) && Scan(doc, i).Some? && (CopyAt(doc, i) ==> Far(doc, i))
    ensures FarTo(doc, Scan(doc, i).value.1)
  {
    hide Scan, Path, Far;
    var j := Scan(doc, i).value.1;
    forall q: nat | Path(doc, 1, q) && q < j && CopyAt(doc, q)
      ensures Far(doc, q)
    {
      if i < q {
        PathNoGap(doc, 1, i, q);
      }
    }
  }

  lemma FarNot(doc: seq<byte>, i: nat)
    requires Path(doc, 1, i) && CopyAt(doc, i) && !Far(doc, i)
    ensures !AllFar(doc)
  {
    hide Scan, Path;
  }

  lemma FarAll(doc: seq<byte>, i: nat)
    requires FarTo(doc, i) && i >= |doc|
    ensures AllFar(doc)
  {
    forall q: nat | Path(doc, 1, q) && CopyAt(doc, q)
      ensures Far(doc, q)
    {
      assert q < |doc|;
    }
  }

  predicate Far(doc: seq<byte>, q: nat)
    requires Scan(doc, q).Some? && Scan(doc, q).value.0.Copy?
  {
    Scan(doc, q).value.0.target + 1 < q
  }

  /** What is noted is the place of a tag. */
  lemma {:induction false} NotedPath(b: seq<byte>, p: nat, x: nat)
    requires Sound(b) && Path(b, 1, p) && 1 <= p && x in Noted(b, p)
    ensures 1 <= x && Path(b, 1, x)
    decreases |b| - p
  {
    var (t, q) := Scan(b, p).value;
    if x in Links(t) {
      assert TagSound(b, p);
    } else if x != p {
      PathStep(b, 1, p);
      hide Scan, Path, Sound;
      NotedPath(b, q, x);
    }
  }

  lemma {:induction false} NotedLinks(b: seq<byte>, p: nat, q: nat)
    requires Path(b, p, q) && Scan(b, q).Some?
    ensures Links(Scan(b, q).value.0) <= Noted(b, p)
    decreases |b| - p
  {
    if p != q {
      NotedLinks(b, Scan(b, p).value.1, q);
    }
  }

  /** At the start, with the items from `at` on: nothing has been found. */
  lemma TraceStart(doc: seq<byte>, at: nat, table: map<nat, int>, idxs: seq<nat>)
    requires Sound(doc) && table.Keys == Noted(doc, 1) && forall x :: x in table ==> table[x] == -1
    requires forall x :: x in idxs <==> x in table
    requires forall j, k :: 0 <= j < k < |idxs| ==> idxs[j] < idxs[k]
    ensures TraceAll(doc, at, at, table, idxs)
  {
    hide Noted, Path, Scan, Sound, NameAt;
    forall x | x in table
      ensures x < at ==> Blocked(doc, at, x)
    {
      if x < at {
        assert Unasked(doc, at, x);
      }
    }
  }

  /** The tag at i has been met, and what follows it up to j is never asked for; v is where it went. */
  lemma TraceStep(doc: seq<byte>, at: nat, i: nat, j: nat, table: map<nat, int>, idxs: seq<nat>, v: nat)
    requires TraceAll(doc, at, i, table, idxs) && i < j && !Unasked(doc, at, i)
    requires forall x :: x in Noted(doc, 1) && i < x < j ==> Unasked(doc, at, x)
    ensures |idxs| > 0 && idxs[0] == i ==> TraceAll(doc, at, j, table[i := v], idxs[1..])
    ensures !(|idxs| > 0 && idxs[0] == i) ==> TraceAll(doc, at, j, table, idxs)
  {
    hide Noted, Unasked, Blocked;
    forall x | x in table && i < x < j
      ensures Blocked(doc, at, x)
    {
      BlockedSelf(doc, at, x);
    }
    FirstIs(doc, at, i, table, idxs);
    if |idxs| > 0 && idxs[0] == i {
      TraceTail(doc, at, i, j, table, idxs, v);
    } else {
      TracePast(doc, at, i, j, table, idxs);
    }
  }

  lemma BlockedSelf(doc: seq<byte>, at: nat, x: nat)
    requires x in Noted(doc, 1) && Unasked(doc, at, x)
    ensures Blocked(doc, at, x)
  {
    hide Noted, Unasked;
  }

  lemma TracePast(doc: seq<byte>, at: nat, i: nat, j: nat, table: map<nat, int>, idxs: seq<nat>)
    requires TraceAll(doc, at, i, table, idxs) && i < j && (i in table ==> Blocked(doc, at, i))
    requires forall x :: x in table && i < x < j ==> Blocked(doc, at, x)
    ensures TraceAll(doc, at, j, table, idxs)
  {
    hide Noted, Blocked;
  }

  lemma TraceTail(doc: seq<byte>, at: nat, i: nat, j: nat, table: map<nat, int>, idxs: seq<nat>, v: nat)
    requires TraceAll(doc, at, i, table, idxs) && i < j && i in table && !Blocked(doc, at, i) && |idxs| > 0 && idxs[0] == i
    requires forall x :: x in table && i < x < j ==> Blocked(doc, at, x)
    ensures TraceAll(doc, at, j, table[i := v], idxs[1..])
  {
    hide Noted, Blocked;
    forall x
      ensures x in idxs[1..] <==> x in idxs && x != i
    {
      TailMembers(idxs, x);
    }
  }

  lemma TailMembers(idxs: seq<nat>, x: nat)
    requires |idxs| > 0 && forall j, k :: 0 <= j < k < |idxs| ==> idxs[j] < idxs[k]
    ensures x in idxs[1..] <==> x in idxs && x != idxs[0]
  {
    if x in idxs && x != idxs[0] {
      var k :| 0 <= k < |idxs| && idxs[k] == x;
      assert idxs[1..][k - 1] == x;
    }
  }

  /** What is met and noted stands first exactly when it is not blocked. */
  lemma FirstIs(doc: seq<byte>, at: nat, i: nat, table: map<nat, int>, idxs: seq<nat>)
    requires TraceAll(doc, at, i, table, idxs) && !Unasked(doc, at, i)
    ensures |idxs| > 0 && idxs[0] == i <==> i in table && !Blocked(doc, at, i)
  {
    hide Noted, Unasked;
    if Blocked(doc, at, i) {
      var c :| c in Noted(doc, 1) && c <= i && Unasked(doc, at, c);
      assert Blocked(doc, at, c);
      assert c in idxs && c < i;
    } else if i in table {
      assert i in idxs;
      var y := idxs[0];
      assert y in idxs && y <= i;
      BlockedMore(doc, at, y, i);
    } else {
      assert |idxs| > 0 ==> idxs[0] in idxs;
    }
  }

  lemma BlockedMore(doc: seq<byte>, at: nat, x: nat, y: nat)
    requires x <= y
    ensures Blocked(doc, at, x) ==> Blocked(doc, at, y)
  {
    hide Noted, Unasked;
  }

  // ----- what a tag opens -----

  /** The tag at i and, if it is an object's, its class name have been read up to j, and open the places w;
      None is a prefix, which leaves its own place to the item behind it. */
  predicate Opened(b: seq<byte>, i: nat, j: nat, w: Option<seq<Want>>) {
    && Scan(b, i).Some? && !Scan(b, i).value.0.Other?
    && var (t, q) := Scan(b, i).value;
    if IsObject(t) then TextAt(b, q) && j == Scan(b, q).value.1 && w == Some([Item])
    else j == q && w == (if Prefixes(t) then None else Some(Wants(t)))
  }

  /** The places to fill behind that. */
  function Left(w: Option<seq<Want>>, todo: seq<Want>): seq<Want>
    requires todo != []
  {
    if w.None? then todo else w.value + todo[1..]
  }

  lemma OpenedWalk(b: seq<byte>, i: nat, j: nat, w: Option<seq<Want>>, todo: seq<Want>)
    requires Opened(b, i, j, w) && todo != []
    ensures Walk(b, i, todo) == Walk(b, j, Left(w, todo)) && i < j
    ensures forall q :: q >= j ==> (KeyDue(b, i, todo, q) <==> KeyDue(b, j, Left(w, todo), q))
  {
    hide Scan;
    var (t, n) := Scan(b, i).value;
    if IsObject(t) {
      WalkObject(b, i, todo);
      NameStep(b, n, todo);
    }
  }

  lemma NameStep(b: seq<byte>, n: nat, todo: seq<Want>)
    requires todo != [] && TextAt(b, n)
    ensures forall q :: q != n ==> (KeyDue(b, n, [Key, Item] + todo[1..], q) <==> KeyDue(b, Scan(b, n).value.1, [Item] + todo[1..], q))
  {
    hide Scan;
    assert ([Key, Item] + todo[1..])[1..] == [Item] + todo[1..];
    var c := Scan(b, n).value.0;
    assert Wants(c) + ([Item] + todo[1..]) == [Item] + todo[1..];
  }

  /** Reading on from i to fill `todo` is reading the items that are asked for. */
  ghost predicate Reading(b: seq<byte>, flat: bool, i: nat, todo: seq<Want>) {
    && Header(b, flat).Some?
    && var (at, n) := Header(b, flat).value;
    && Walk(b, i, todo) == Walk(b, at, Items(n))
    && forall q :: q >= i ==> (KeyDue(b, i, todo, q) <==> KeyDue(b, at, Items(n), q))
  }

  lemma ReadingStart(b: seq<byte>, flat: bool)
    requires Header(b, flat).Some?
    ensures var (at, n) := Header(b, flat).value; Reading(b, flat, at, Items(n))
  {
    hide Scan, Walk, KeyDue;
  }

  lemma ReadingNext(b: seq<byte>, flat: bool, i: nat, j: nat, w: Option<seq<Want>>, todo: seq<Want>)
    requires Reading(b, flat, i, todo) && Opened(b, i, j, w) && todo != []
    ensures Reading(b, flat, j, Left(w, todo)) && i < j
  {
    OpenedWalk(b, i, j, w, todo);
    hide Scan, Walk, KeyDue, Header, Opened;
  }

  lemma {:induction false} KeyDueBehind(b: seq<byte>, p: nat, todo: seq<Want>, q: nat)
    requires q < p
    ensures !KeyDue(b, p, todo, q)
    decreases |b| - p
  {
    if todo != [] && Scan(b, p).Some? {
      KeyDueBehind(b, Scan(b, p).value.1, Behind(Scan(b, p).value.0, todo), q);
    }
  }

  /** While something is due, the tag at i is met, and a key is due there if it is due first. */
  lemma ReadingHere(b: seq<byte>, flat: bool, i: nat, todo: seq<Want>)
    requires Reading(b, flat, i, todo) && Takeable(b, flat) && todo != [] && i < |b|
    requires Path(b, 1, i) && Header(b, flat).value.0 <= i
    ensures Met(b, flat, i) && Scan(b, i).Some? && !Scan(b, i).value.0.Other?
    ensures KeyDue(b, Header(b, flat).value.0, Items(Header(b, flat).value.1), i) <==> todo[0] == Key
    ensures IsObject(Scan(b, i).value.0) ==> Scan(b, i).value.1 == i + 1 && TextAt(b, i + 1) && NameMet(b, flat, i + 1)
  {
    hide Path, Sound, Header;
    ObjectWide(b, i);
    PathStep(b, 1, i);
    assert TagTakeable(b, i);
    if IsObject(Scan(b, i).value.0) {
      NameHere(b, i, todo);
    }
    hide TagTakeable;
    if Scan(b, i).Some? {
      KeyDueBehind(b, Scan(b, i).value.1, Behind(Scan(b, i).value.0, todo), i);
    }
    hide Scan;
    assert KeyDue(b, i, todo, i) <==> todo[0] == Key;
  }

  /** The walk goes on behind a class name. */
  lemma NameHere(b: seq<byte>, i: nat, todo: seq<Want>)
    requires todo != [] && Walk(b, i, todo).Some? && Scan(b, i).Some? && IsObject(Scan(b, i).value.0)
    requires Scan(b, i).value.1 == i + 1 && TextAt(b, i + 1)
    ensures i + 1 < Walk(b, i, todo).value.0
  {
    hide Scan;
    WalkObject(b, i, todo);
  }

  lemma ReadingEnd(b: seq<byte>, flat: bool, i: nat, todo: seq<Want>)
    requires Reading(b, flat, i, todo) && (todo == [] || i >= |b|)
    ensures var (at, n) := Header(b, flat).value; Walk(b, at, Items(n)) == Some((i, todo))
  {
    hide Scan, KeyDue, Header;
  }

  /** No class name begins behind what has been read. */
  lemma NameNext(b: seq<byte>, i: nat, j: nat, w: Option<seq<Want>>)
    requires Opened(b, i, j, w) && Path(b, 1, i) && 1 <= i
    ensures !NameAt(b, j)
  {
    ObjectWide(b, i);
    hide Scan, Path, Wants;
    PathStep(b, 1, i);
    if NameAt(b, j) {
      var q := Scan(b, i).value.1;
      PathNoGap(b, 1, i, j - 1);
      if IsObject(Scan(b, i).value.0) {
        PathStep(b, 1, q);
        if q < j - 1 {
          PathNoGap(b, 1, q, j - 1);
        }
      }
    }
  }

  /** Nothing noted lies inside what has been read but class names. */
  lemma OpenedTrace(b: seq<byte>, at: nat, i: nat, j: nat, w: Option<seq<Want>>, x: nat)
    requires Opened(b, i, j, w) && Sound(b) && Path(b, 1, i) && x in Noted(b, 1) && i < x < j
    ensures Unasked(b, at, x)
  {
    ObjectWide(b, i);
    hide Scan, Path, Noted, Sound, Wants;
    PathSelf(b, 1);
    NotedPath(b, 1, x);
    PathNoGap(b, 1, i, x);
    var q := Scan(b, i).value.1;
    PathStep(b, 1, i);
    if q < x {
      PathNoGap(b, 1, q, x);
    }
  }

  lemma ObjectWide(b: seq<byte>, i: nat)
    ensures Scan(b, i).Some? && IsObject(Scan(b, i).value.0) ==> Scan(b, i).value.1 == i + 1
  {
  }

  /** The counters are 32 bits wide. */
  function Plus(c: nat): nat { if c == 0xFFFF_FFFF then 0 else c + 1 }
  function Minus(c: nat): nat { if c == 0 then 0xFFFF_FFFF else c - 1 }

  /** What a tag does to the stack, before its own place is counted down: one more in the same frame, to be
      counted down again, if it is a prefix; else nothing, or a frame for the places w it opens. */
  predicate Pushed(was: seq<nat>, stack: seq<nat>, w: Option<seq<Want>>)
    requires was != []
  {
    var level := |was| - 1;
    if w.None? then stack == was[level := Plus(was[level])]
    else
      || (w == Some([]) && stack == was)
      || (|stack| == |was| + 1 && stack[..|was|] == was && Frame(stack[|was|]) == w.value)
  }

  /** The stack keeps saying what is still owed. */
  lemma PushedTodo(was: seq<nat>, stack: seq<nat>, w: Option<seq<Want>>)
    requires was != [] && was[|was| - 1] % KEYS > 0 && Pushed(was, stack, w)
    ensures |was| <= |stack| && Todo(was) != []
    ensures Todo(stack[|was| - 1 := Minus(stack[|was| - 1])]) == Left(w, Todo(was))
  {
    hide Todo, Frame, KeyNext;
    var rest, top := was[..|was| - 1], was[|was| - 1];
    assert was == rest + [top];
    var c := if |stack| == |was| + 1 then stack[|was|] else 0;
    TodoNext(rest, top, c);
    var left := Todo(rest + [top - 1]);
    assert Todo(was)[1..] == left;
    PushedStack(rest, top, was, stack, w);
    assert w == Some([]) ==> w.value + left == left;
  }

  lemma PushedStack(rest: seq<nat>, top: nat, was: seq<nat>, stack: seq<nat>, w: Option<seq<Want>>)
    requires was == rest + [top] && top > 0 && Pushed(was, stack, w)
    ensures |was| <= |stack|
    ensures var next := stack[|was| - 1 := Minus(stack[|was| - 1])];
            || (w == Some([]) && next == rest + [top - 1])
            || (w == None && next == was)
            || (|stack| == |was| + 1 && w.Some? && Frame(stack[|was|]) == w.value && next == rest + [top - 1] + [stack[|was|]])
  {
    hide Frame;
    var level := |was| - 1;
    if |stack| == |was| + 1 && stack[..|was|] == was {
      assert stack == was + [stack[|was|]];
    }
  }
}
