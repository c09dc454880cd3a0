/** When one stream of tags is the translation of another, tag by tag.

    A translation moves every tag, rewrites the offsets that tags carry, and may put a COPY in place of
    a repeated string, or an OBJECTV in place of an OBJECT with a repeated class name.  This module says
    what such a translation must respect locally, at one tag, and proves that it then preserves meaning
    globally. */
module Mapping {
  import opened Varint
  import opened Wire

  // ----- the source side: reading tags one after the other, without nesting -----

  /** Reading tag after tag from p arrives at q. */
  ghost predicate Path(b: seq<byte>, p: nat, q: nat)
    decreases |b| - p
  {
    p == q || (Scan(b, p).Some? && Path(b, Scan(b, p).value.1, q))
  }

  lemma PathSelf(b: seq<byte>, p: nat)
    ensures Path(b, p, p)
  {
  }

  /** One step along a path. */
  lemma PathTo(b: seq<byte>, p: nat, q: nat)
    ensures Path(b, p, q) <==> p == q || (Scan(b, p).Some? && Path(b, Scan(b, p).value.1, q))
  {
  }

  lemma {:induction false} PathStep(b: seq<byte>, p: nat, q: nat)
    requires Path(b, p, q) && Scan(b, q).Some?
    ensures Path(b, p, Scan(b, q).value.1)
    decreases |b| - p
  {
    if p != q {
      PathStep(b, Scan(b, p).value.1, q);
    }
  }

  lemma {:induction false} PathOrder(b: seq<byte>, p: nat, q: nat)
    requires Path(b, p, q)
    ensures p <= q && (p < |b| ==> q <= |b|)
    decreases |b| - p
  {
    if p != q {
      PathOrder(b, Scan(b, p).value.1, q);
    }
  }

  lemma {:induction false} PathTrans(b: seq<byte>, p: nat, q: nat, r: nat)
    requires Path(b, p, q) && Path(b, q, r)
    ensures Path(b, p, r)
    decreases |b| - p
  {
    if p != q {
      PathTrans(b, Scan(b, p).value.1, q, r);
    }
  }

  /** No tag begins inside the payload of another. */
  lemma {:induction false} PathNoGap(b: seq<byte>, p: nat, q: nat, x: nat)
    requires Path(b, p, q) && Path(b, p, x) && q < x
    ensures Scan(b, q).Some? && Scan(b, q).value.1 <= x
    decreases |b| - p
  {
    PathOrder(b, p, x);
    if p == q {
      PathOrder(b, Scan(b, p).value.1, x);
    } else {
      PathOrder(b, Scan(b, p).value.1, q);
      PathNoGap(b, Scan(b, p).value.1, q, x);
    }
  }

  /** The class name at x, of an object right before it, is a COPY. */
  ghost predicate BorrowedAt(b: seq<byte>, x: nat) {
    && 0 < x && Path(b, 1, x - 1) && Scan(b, x - 1).Some? && IsObject(Scan(b, x - 1).value.0)
    && Scan(b, x).Some? && Scan(b, x).value.0.Copy?
  }

  /** What a single tag must satisfy for its offsets to make sense: it points back at a tag, a COPY and
      an OBJECTV at a string; a class name is a string or a COPY of one. */
  ghost predicate TagSound(b: seq<byte>, q: nat)
    requires Scan(b, q).Some?
  {
    var (t, next) := Scan(b, q).value;
    match t
    case Copy(x) => 0 < x < q && Path(b, 1, x) && TextAt(b, x)
    case ObjectV(_, x) => 0 < x < q && Path(b, 1, x) && TextAt(b, x)
    case Refer(x) => 0 < x < q && Path(b, 1, x) && !PadAt(b, x) && !BorrowedAt(b, x)
    case Alias(x) => 0 < x < q && Path(b, 1, x) && !PadAt(b, x) && !BorrowedAt(b, x)
    case Open(_, _) => IsObject(t) ==> Scan(b, next).Some? && Stringish(Scan(b, next).value.0)
    case Other(_) => false
    case _ => true
  }

  /** Every tag of the stream is sound.  Nothing is said about nesting or counts. */
  ghost predicate Sound(b: seq<byte>) {
    forall q :: Path(b, 1, q) && Scan(b, q).Some? ==> TagSound(b, q)
  }

  /** Every class name before `upto` is spelled out. */
  ghost predicate Spelled(b: seq<byte>, upto: nat) {
    forall q: nat :: Path(b, 1, q) && q < upto && Scan(b, q).Some? && IsObject(Scan(b, q).value.0) ==> TextAt(b, Scan(b, q).value.1)
  }

  /** The offsets a tag carries, and those carried anywhere from p on. */
  ghost function Links(t: Token): (s: set<nat>) {
    if t.Copy? || t.Refer? || t.Alias? || t.ObjectV? then {t.target} else {}
  }

  ghost function Targets(b: seq<byte>, p: nat): (s: set<nat>)
    decreases |b| - p
  {
    match Scan(b, p)
    case None => {}
    case Some((t, q)) => Links(t) + Targets(b, q)
  }

  lemma {:induction false} TargetsOnPath(b: seq<byte>, p: nat, q: nat)
    requires Path(b, p, q) && Scan(b, q).Some?
    ensures Links(Scan(b, q).value.0) <= Targets(b, p)
    decreases |b| - p
  {
    if p != q {
      TargetsOnPath(b, Scan(b, p).value.1, q);
    }
  }

  lemma {:induction false} TargetsSound(b: seq<byte>, p: nat, x: nat)
    requires Sound(b) && Path(b, 1, p) && x in Targets(b, p)
    ensures 0 < x && Path(b, 1, x) && Scan(b, x).Some?
    decreases |b| - p
  {
    var (t, q) := Scan(b, p).value;
    if x in Links(t) {
      assert TagSound(b, p);
      PathNoGap(b, 1, x, p);
    } else {
      PathStep(b, 1, p);
      TargetsSound(b, q, x);
    }
  }

  /** A tag inside a well-formed item begins a well-formed item itself. */
  lemma {:induction false} ParseInside(b: seq<byte>, p: nat, todo: seq<Want>, i: nat)
    requires Parse(b, p, todo).Some? && Path(b, p, i) && i < Parse(b, p, todo).value
    ensures Parse(b, i, [Item]).Some?
    ensures Parse(b, i, [Item]).value <= Parse(b, p, todo).value
    decreases |b| - p
  {
    PathOrder(b, p, i);
    if p == i {
      assert todo == [todo[0]] + todo[1..];
      ParseSplit(b, p, [todo[0]], todo[1..]);
      assert [todo[0]][1..] == [Item][1..];
    } else {
      ParseInside(b, Scan(b, p).value.1, Wants(Scan(b, p).value.0) + todo[1..], i);
    }
  }

  /** Reading items is reading their tags. */
  lemma {:induction false} ParsePath(b: seq<byte>, p: nat, todo: seq<Want>)
    requires Parse(b, p, todo).Some?
    ensures Path(b, p, Parse(b, p, todo).value)
    decreases |b| - p
  {
    if todo != [] {
      var (t, q) := Scan(b, p).value;
      ParsePath(b, q, Wants(t) + todo[1..]);
    }
  }

  // ----- the target side: the positions of its tags -----

  /** Tags of `out` begin at `marks`, and no mark lies inside the payload of another tag. */
  ghost predicate Marked(out: seq<byte>, marks: set<nat>) {
    forall x :: x in marks ==>
      && 0 < x && Scan(out, x).Some?
      && forall y :: y in marks && x < y ==> Scan(out, x).value.1 <= y
  }

  ghost predicate SameTags(out: seq<byte>, out': seq<byte>, marks: set<nat>) {
    forall x :: x in marks ==> Scan(out', x) == Scan(out, x)
  }

  /** Up to position n the buffers differ at most in the track flags of the marked tags. */
  ghost predicate FlagsOnly(out: seq<byte>, out': seq<byte>, n: nat, marks: set<nat>) {
    && n <= |out| && n <= |out'|
    && forall j :: 0 <= j < n ==> out'[j] == out[j] || (j in marks && out'[j] == out[j] + HIGH)
  }

  /** Raising track flags, appending, cutting off behind the last marked tag, and overwriting what lies
      before the first, leave the tags alone. */
  lemma KeepTagsFrom(out: seq<byte>, out': seq<byte>, lo: nat, n: nat, marks: set<nat>)
    requires Marked(out, marks) && n <= |out| && n <= |out'|
    requires forall j :: lo <= j < n ==> out'[j] == out[j] || (j in marks && out'[j] == out[j] + HIGH)
    requires forall x :: x in marks ==> lo <= x && Scan(out, x).value.1 <= n
    ensures SameTags(out, out', marks) && Marked(out', marks)
  {
    hide Scan;
    forall x | x in marks
      ensures Scan(out', x) == Scan(out, x)
    {
      forall j | x + 1 <= j < Scan(out, x).value.1
        ensures out'[j] == out[j]
      {
        assert j !in marks;
      }
      KeepTag(out, out', x);
    }
  }

  lemma KeepTag(out: seq<byte>, out': seq<byte>, x: nat)
    requires Scan(out, x).Some? && Scan(out, x).value.1 <= |out'|
    requires x < |out| && x < |out'| && (out'[x] == out[x] || out'[x] == out[x] + HIGH)
    requires forall j :: x + 1 <= j < Scan(out, x).value.1 ==> j < |out| && out'[j] == out[j]
    ensures Scan(out', x) == Scan(out, x)
  {
    hide Scan;
    var q := Scan(out, x).value.1;
    assert out[x + 1..q] == out'[x + 1..q];
    ScanShift(out, x, out', x);
  }

  lemma KeepTags(out: seq<byte>, out': seq<byte>, n: nat, marks: set<nat>)
    requires Marked(out, marks) && FlagsOnly(out, out', n, marks)
    requires forall x :: x in marks ==> Scan(out, x).value.1 <= n
    ensures SameTags(out, out', marks) && Marked(out', marks)
  {
    KeepTagsFrom(out, out', 0, n, marks);
  }

  // ----- the translation -----

  /** At the boundary i of the source the target stands at m[i]; the tags there correspond, and the
      boundaries behind them do too.  `img` says where the offsets that named a source tag now go. */
  ghost predicate Local(inp: seq<byte>, i: nat, out: seq<byte>, marks: set<nat>, m: map<nat, nat>, img: map<nat, nat>) {
    && i in m && m[i] in marks && Scan(inp, i).Some? && Scan(out, m[i]).Some?
    && var o := m[i];
    var (t, q) := Scan(inp, i).value;
    var (u, r) := Scan(out, o).value;
    match t
    case Text(_, _) =>
      && (u == t || (u.Copy? && TextTwin(t, out, u.target, o, marks)))
      && i in img && img[i] == (if u.Copy? then u.target else o)
      && q in m && m[q] == r
    case Copy(x) => x in img && img[x] < o && u == Copy(img[x]) && q in m && m[q] == r
    case Refer(x) => x in img && img[x] < o && u == Refer(img[x]) && q in m && m[q] == r
    case Alias(x) => x in img && img[x] < o && u == Alias(img[x]) && q in m && m[q] == r
    case ObjectV(tag, x) => x in img && img[x] < o && u == ObjectV(tag, img[x]) && q in m && m[q] == r
    case Open(tag, n) =>
      if IsObject(t) then
        && Scan(inp, q).Some?
        && var (c, e) := Scan(inp, q).value;
        && e in m
        && if c.Copy? then c.target in img && img[c.target] < o && u == Copy(img[c.target]) && m[e] == r
           else
             && c.Text? && q in img
             && (|| (u == t && r in marks && img[q] == r && Scan(out, r) == Some((c, m[e])))
                 || (u == ObjectV(tag, img[q]) && TextTwin(c, out, img[q], o, marks) && m[e] == r))
      else u == t && q in m && m[q] == r
    case Other(_) => false
    case _ => u == t && q in m && m[q] == r
  }

  /** Strings of the same bytes, perhaps in another form. */
  predicate SameContent(t: Token, u: Token) {
    t.Text? && u.Text? && t.content == u.content
  }

  /** A string of the same bytes stands, spelled out, at position v before o. */
  ghost predicate TextTwin(t: Token, out: seq<byte>, v: nat, o: nat, marks: set<nat>) {
    t.Text? && v in marks && 0 < v < o && Scan(out, v).Some? && SameContent(t, Scan(out, v).value.0)
  }

  /** The image of a source tag: the tag it became or, for a string, one of the same bytes spelled out. */
  ghost predicate ImageOf(inp: seq<byte>, x: nat, out: seq<byte>, marks: set<nat>, m: map<nat, nat>, v: nat) {
    && v in marks && 0 < v && Scan(inp, x).Some?
    && if Scan(inp, x).value.0.Text? then Scan(out, v).Some? && SameContent(Scan(inp, x).value.0, Scan(out, v).value.0)
       else x in m && m[x] == v
  }

  /** The source has been translated up to `upto`. */
  ghost predicate Mapped(inp: seq<byte>, upto: nat, out: seq<byte>, marks: set<nat>, m: map<nat, nat>, img: map<nat, nat>) {
    && upto in m && Path(inp, 1, upto)
    && (forall i :: i in m ==> 1 <= i <= upto && Path(inp, 1, i))
    && (forall i :: i in m && i < upto ==> Local(inp, i, out, marks, m, img))
    && (forall x :: x in img ==> 1 <= x < upto && ImageOf(inp, x, out, marks, m, img[x]))
  }

  /** The tags from `at` on have images, but for class names that are a COPY. */
  ghost predicate Covered(inp: seq<byte>, at: nat, upto: nat, img: map<nat, nat>) {
    && (forall x :: at <= x < upto && Path(inp, 1, x) && !BorrowedAt(inp, x) ==> x in img)
    && (forall x :: x in img ==> at <= x && Path(inp, 1, x))
  }

  /** Images of strings are in the form of their originals. */
  ghost predicate FormsKept(inp: seq<byte>, out: seq<byte>, img: map<nat, nat>) {
    forall x :: x in img && TextAt(inp, x) ==> FormKept(inp, out, img, x)
  }

  ghost predicate FormKept(inp: seq<byte>, out: seq<byte>, img: map<nat, nat>, x: nat)
    requires x in img && TextAt(inp, x)
  {
    Scan(out, img[x]).Some? && Scan(out, img[x]).value.0 == Scan(inp, x).value.0
  }

  /** Where nothing was deduplicated, offsets go exactly to the tag that became of their target. */
  ghost predicate Exact(m: map<nat, nat>, img: map<nat, nat>) {
    forall x :: x in img ==> ExactAt(m, img, x)
  }

  ghost predicate ExactAt(m: map<nat, nat>, img: map<nat, nat>, x: nat)
    requires x in img
  {
    if x in m then img[x] == m[x]
    else x > 0 && x - 1 in m && img[x] == m[x - 1] + 1
  }

  /** What holds at a boundary keeps holding while the target grows and the maps are extended. */
  lemma LocalStable(inp: seq<byte>, i: nat, out: seq<byte>, out': seq<byte>, marks: set<nat>, marks': set<nat>,
                    m: map<nat, nat>, m': map<nat, nat>, img: map<nat, nat>, img': map<nat, nat>)
    requires Local(inp, i, out, marks, m, img)
    requires SameTags(out, out', marks) && marks <= marks'
    requires forall x :: x in m ==> x in m' && m'[x] == m[x]
    requires forall x :: x in img ==> x in img' && img'[x] == img[x]
    ensures Local(inp, i, out', marks', m', img')
  {
    hide Scan;
  }

  /** A translation survives whatever leaves the marked tags of the target alone. */
  lemma MappedStable(inp: seq<byte>, upto: nat, out: seq<byte>, out': seq<byte>, marks: set<nat>, marks': set<nat>,
                     m: map<nat, nat>, img: map<nat, nat>)
    requires Mapped(inp, upto, out, marks, m, img)
    requires SameTags(out, out', marks) && marks <= marks'
    ensures Mapped(inp, upto, out', marks', m, img)
  {
    hide Scan, Path, Local;
    forall i | i in m && i < upto
      ensures Local(inp, i, out', marks', m, img)
    {
      LocalStable(inp, i, out, out', marks, marks', m, m, img, img);
    }
    forall x | x in img
      ensures ImageOf(inp, x, out', marks', m, img[x])
    {
      assert ImageOf(inp, x, out, marks, m, img[x]);
    }
  }

  /** One more step: the tag at i, with whatever belongs to it up to e, has been translated. */
  lemma MappedStep(inp: seq<byte>, i: nat, e: nat, out: seq<byte>, out': seq<byte>, marks: set<nat>, marks': set<nat>,
                   m: map<nat, nat>, img: map<nat, nat>, img': map<nat, nat>)
    requires Mapped(inp, i, out, marks, m, img)
    requires SameTags(out, out', marks) && marks <= marks'
    requires i < e && Path(inp, 1, e)
    requires forall x :: x in img ==> x in img' && img'[x] == img[x]
    requires forall x :: x in img' && x !in img ==> i <= x < e && ImageOf(inp, x, out', marks', m[e := |out'|], img'[x])
    requires Local(inp, i, out', marks', m[e := |out'|], img')
    ensures Mapped(inp, e, out', marks', m[e := |out'|], img')
  {
    hide Scan, Path, Local;
    var m' := m[e := |out'|];
    forall j | j in m' && j < e
      ensures Local(inp, j, out', marks', m', img')
    {
      if j != i {
        LocalStable(inp, j, out, out', marks, marks', m, m', img, img');
      }
    }
    forall x | x in img'
      ensures 1 <= x < e && ImageOf(inp, x, out', marks', m', img'[x])
    {
      if x in img {
        assert ImageOf(inp, x, out, marks, m, img[x]);
      }
    }
  }

  /** One tag read on both sides. */
  lemma TagStep(inp: seq<byte>, i: nat, out: seq<byte>, marks: set<nat>, m: map<nat, nat>, img: map<nat, nat>, todo: seq<Want>)
    requires Local(inp, i, out, marks, m, img) && todo != [] && !IsObject(Scan(inp, i).value.0)
    ensures var (t, q) := Scan(inp, i).value;
            && q in m && !t.Other?
            && if todo[0] == Key && !Stringish(t) then Parse(inp, i, todo).None? && Parse(out, m[i], todo).None?
               else
                 && Behind(t, todo) == Wants(t) + todo[1..] && Parse(inp, i, todo) == Parse(inp, q, Wants(t) + todo[1..])
                 && Parse(out, m[i], todo) == Parse(out, m[q], Wants(t) + todo[1..])
  {
    hide Scan;
  }

  /** An object with its class name spelled out, and one with its class name pointed at, read where an
      item is due. */
  lemma ObjectReads(b: seq<byte>, p: nat, todo: seq<Want>)
    requires todo != [] && Scan(b, p).Some?
    ensures (IsObject(Scan(b, p).value.0) || Scan(b, p).value.0.ObjectV?) && todo[0] == Key ==> Parse(b, p, todo).None?
    ensures IsObject(Scan(b, p).value.0) && todo[0] == Item && TextAt(b, Scan(b, p).value.1) ==>
      Parse(b, p, todo) == Parse(b, Scan(b, Scan(b, p).value.1).value.1, [Item] + todo[1..])
    ensures Scan(b, p).value.0.ObjectV? && todo[0] == Item ==>
      Parse(b, p, todo) == Parse(b, Scan(b, p).value.1, [Item] + todo[1..])
  {
    hide Scan;
    var q := Scan(b, p).value.1;
    if IsObject(Scan(b, p).value.0) && TextAt(b, q) {
      var c := Scan(b, q).value.0;
      assert ([Key, Item] + todo[1..])[1..] == [Item] + todo[1..];
      assert Wants(c) + ([Item] + todo[1..]) == [Item] + todo[1..];
    }
  }

  /** An object and its class name, read on both sides. */
  lemma ObjectStep(inp: seq<byte>, i: nat, out: seq<byte>, marks: set<nat>, m: map<nat, nat>, img: map<nat, nat>, todo: seq<Want>)
    requires Local(inp, i, out, marks, m, img) && todo != []
    requires IsObject(Scan(inp, i).value.0) && TextAt(inp, Scan(inp, i).value.1)
    ensures var e := Scan(inp, Scan(inp, i).value.1).value.1;
            && e in m
            && if todo[0] == Key then Parse(inp, i, todo).None? && Parse(out, m[i], todo).None?
               else
                 && Parse(inp, i, todo) == Parse(inp, e, [Item] + todo[1..])
                 && Parse(out, m[i], todo) == Parse(out, m[e], [Item] + todo[1..])
  {
    hide Scan, Parse;
    ObjectReads(inp, i, todo);
    ObjectReads(out, m[i], todo);
  }

  lemma WalkObject(b: seq<byte>, p: nat, todo: seq<Want>)
    requires todo != [] && Scan(b, p).Some? && IsObject(Scan(b, p).value.0) && TextAt(b, Scan(b, p).value.1)
    ensures Walk(b, p, todo) == Walk(b, Scan(b, Scan(b, p).value.1).value.1, [Item] + todo[1..])
  {
    hide Scan;
    var q := Scan(b, p).value.1;
    var c := Scan(b, q).value.0;
    assert Walk(b, p, todo) == Walk(b, q, [Key, Item] + todo[1..]);
    assert ([Key, Item] + todo[1..])[1..] == [Item] + todo[1..];
    assert Wants(c) + ([Item] + todo[1..]) == [Item] + todo[1..];
  }

  /** Reading in the source and in the target runs in lock step: where tags fill the places, the ones are
      well formed exactly when the others are. */
  lemma {:induction false} WalkStep(inp: seq<byte>, upto: nat, out: seq<byte>, marks: set<nat>,
                                    m: map<nat, nat>, img: map<nat, nat>, i: nat, todo: seq<Want>, e: nat)
    requires Mapped(inp, upto, out, marks, m, img) && Spelled(inp, upto) && i in m
    requires Walk(inp, i, todo) == Some((e, [])) && e <= upto
    ensures e in m
    ensures Parse(inp, i, todo).Some? ==> Parse(inp, i, todo) == Some(e) && Parse(out, m[i], todo) == Some(m[e])
    ensures Parse(inp, i, todo).None? ==> Parse(out, m[i], todo).None?
    decreases |inp| - i
  {
    if todo != [] {
      assert i < e;
      assert Local(inp, i, out, marks, m, img) && Path(inp, 1, i);
      hide Scan, Path, Local, Wants;
      var (t, q) := Scan(inp, i).value;
      if IsObject(t) {
        ObjectStep(inp, i, out, marks, m, img, todo);
        WalkObject(inp, i, todo);
        WalkStep(inp, upto, out, marks, m, img, Scan(inp, q).value.1, [Item] + todo[1..], e);
      } else {
        TagStep(inp, i, out, marks, m, img, todo);
        WalkStep(inp, upto, out, marks, m, img, q, Behind(t, todo), e);
      }
    }
  }

  /** An item of the source and its image in the target end together. */
  lemma LockStep(inp: seq<byte>, upto: nat, out: seq<byte>, marks: set<nat>,
                 m: map<nat, nat>, img: map<nat, nat>, i: nat, todo: seq<Want>)
    requires Mapped(inp, upto, out, marks, m, img) && Spelled(inp, upto) && i in m
    requires Parse(inp, i, todo).Some? && Parse(inp, i, todo).value <= upto
    ensures Parse(inp, i, todo).value in m
    ensures Parse(out, m[i], todo) == Some(m[Parse(inp, i, todo).value])
  {
    hide Scan, Path, Local, Parse, Walk, Mapped, Spelled;
    ParseWalk(inp, i, todo);
    WalkStep(inp, upto, out, marks, m, img, i, todo, Parse(inp, i, todo).value);
  }

  lemma {:induction false} ChainLockStep(inp: seq<byte>, upto: nat, out: seq<byte>, marks: set<nat>,
                                         m: map<nat, nat>, img: map<nat, nat>, i: nat, wants: seq<Want>)
    requires Mapped(inp, upto, out, marks, m, img) && Spelled(inp, upto) && i in m
    requires Parse(inp, i, wants).Some? && Parse(inp, i, wants).value <= upto
    ensures Chain(inp, i, wants).Some? && Chain(out, m[i], wants).Some?
    ensures var ks, ls := Chain(inp, i, wants).value, Chain(out, m[i], wants).value;
            |ks| == |ls| && forall j :: 0 <= j < |ks| ==> ks[j] in m && ks[j] < upto && ls[j] == m[ks[j]]
    decreases |wants|
  {
    hide Scan, Path;
    if wants != [] {
      assert wants == [wants[0]] + wants[1..];
      ParseSplit(inp, i, [wants[0]], wants[1..]);
      LockStep(inp, upto, out, marks, m, img, i, [wants[0]]);
      ChainLockStep(inp, upto, out, marks, m, img, Parse(inp, i, [wants[0]]).value, wants[1..]);
    }
  }

  /** The whole source is one item, soundly linked and with its class names spelled out, and what has been
      translated of it reaches to its end. */
  ghost predicate Carried(inp: seq<byte>, upto: nat, out: seq<byte>, marks: set<nat>, m: map<nat, nat>, img: map<nat, nat>) {
    && Mapped(inp, upto, out, marks, m, img) && Sound(inp) && Spelled(inp, upto) && Parse(inp, 1, [Item]) == Some(upto)
  }

  /** And strings have kept their forms. */
  ghost predicate Translated(inp: seq<byte>, upto: nat, out: seq<byte>, marks: set<nat>, m: map<nat, nat>, img: map<nat, nat>) {
    Carried(inp, upto, out, marks, m, img) && FormsKept(inp, out, img)
  }

  /** Two tags of source and target that stand for the same thing: image and original, or equal strings. */
  ghost predicate Twins(inp: seq<byte>, upto: nat, out: seq<byte>, m: map<nat, nat>, x: nat, y: nat) {
    || (x in m && x < upto && y == m[x])
    || (TextAt(inp, x) && TextAt(out, y) && Scan(inp, x).value.0 == Scan(out, y).value.0)
  }

  /** The facts about one boundary, and about one link, of a translation. */
  lemma LocalAt(inp: seq<byte>, upto: nat, out: seq<byte>, marks: set<nat>, m: map<nat, nat>, img: map<nat, nat>, i: nat)
    requires Carried(inp, upto, out, marks, m, img) && i in m && i < upto
    ensures Local(inp, i, out, marks, m, img) && Path(inp, 1, i) && Scan(inp, i).Some? && TagSound(inp, i)
    ensures IsObject(Scan(inp, i).value.0) ==> TextAt(inp, Scan(inp, i).value.1)
    ensures Parse(inp, i, [Item]).Some? && Parse(inp, i, [Item]).value <= upto
  {
    hide Scan, Path, Local;
    ParseInside(inp, 1, [Item], i);
    assert Local(inp, i, out, marks, m, img);
  }

  /** What a link in the source points at, and what its image points at. */
  lemma LinkTwins(inp: seq<byte>, upto: nat, out: seq<byte>, marks: set<nat>, m: map<nat, nat>, img: map<nat, nat>, x: nat)
    requires Translated(inp, upto, out, marks, m, img) && x in img
    ensures Twins(inp, upto, out, m, x, img[x]) && 0 < img[x]
    ensures TextAt(inp, x) ==> TextAt(out, img[x])
    ensures !PadAt(inp, x) ==> !PadAt(out, img[x])
  {
    assert ImageOf(inp, x, out, marks, m, img[x]);
    assert TextAt(inp, x) ==> FormKept(inp, out, img, x);
    ScanPad(inp, x);
    ScanPad(out, img[x]);
    hide Scan, Path, PadAt;
    if !TextAt(inp, x) {
      assert Local(inp, x, out, marks, m, img);
    }
  }

  /** What became of padding and of links. */
  lemma LinkShape(inp: seq<byte>, i: nat, out: seq<byte>, marks: set<nat>, m: map<nat, nat>, img: map<nat, nat>)
    requires Local(inp, i, out, marks, m, img)
    ensures i in m && Scan(inp, i).Some? && Scan(out, m[i]).Some?
    ensures var t, u := Scan(inp, i).value.0, Scan(out, m[i]).value.0;
            && (t.Pad? ==> u.Pad? && Scan(inp, i).value.1 in m && m[Scan(inp, i).value.1] == Scan(out, m[i]).value.1)
            && (t.Alias? ==> t.target in img && img[t.target] < m[i] && u == Alias(img[t.target]))
            && (t.Copy? ==> t.target in img && img[t.target] < m[i] && u == Copy(img[t.target]))
  {
    hide Scan;
  }

  /** What stands for itself became something that does. */
  lemma SettledShape(inp: seq<byte>, i: nat, out: seq<byte>, marks: set<nat>, m: map<nat, nat>, img: map<nat, nat>)
    requires Local(inp, i, out, marks, m, img) && Settled(inp, i) && !TextAt(inp, i)
    requires IsObject(Scan(inp, i).value.0) ==> TextAt(inp, Scan(inp, i).value.1)
    ensures Settled(out, m[i])
  {
    hide Scan;
  }

  lemma ResolveSettled(b: seq<byte>, p: nat)
    requires Settled(b, p)
    ensures Resolve(b, p) == Some(p)
  {
    hide Scan;
    ScanPad(b, p);
  }

  lemma {:induction false} ResolveTwins(inp: seq<byte>, upto: nat, out: seq<byte>, marks: set<nat>,
                                        m: map<nat, nat>, img: map<nat, nat>, x: nat, y: nat)
    requires Translated(inp, upto, out, marks, m, img) && Twins(inp, upto, out, m, x, y)
    ensures Resolve(inp, x).Some? && Resolve(out, y).Some?
    ensures Twins(inp, upto, out, m, Resolve(inp, x).value, Resolve(out, y).value)
    decreases if PadAt(inp, x) then 1 else 0, if PadAt(inp, x) then |inp| - x else x
  {
    hide Scan, Path, PadAt, Translated, Carried, Local;
    Unfold(inp, upto, out, marks, m, img);
    ScanPad(inp, x);
    ScanPad(out, y);
    if TextAt(inp, x) && TextAt(out, y) && Scan(inp, x).value.0 == Scan(out, y).value.0 {
      ResolveSettled(inp, x);
      ResolveSettled(out, y);
    } else {
      LocalAt(inp, upto, out, marks, m, img, x);
      LinkShape(inp, x, out, marks, m, img);
      match Scan(inp, x).value.0
      case Pad =>
        ParseItem(inp, x);
        ResolveTwins(inp, upto, out, marks, m, img, x + 1, y + 1);
      case Alias(z) =>
        LinkTwins(inp, upto, out, marks, m, img, z);
        ResolveTwins(inp, upto, out, marks, m, img, z, img[z]);
      case Copy(z) =>
        LinkTwins(inp, upto, out, marks, m, img, z);
      case Text(_, _) =>
        TextResolves(inp, upto, out, marks, m, img, x);
      case _ =>
        SettledShape(inp, x, out, marks, m, img);
        ResolveSettled(inp, x);
        ResolveSettled(out, y);
    }
  }

  /** A string became itself, or a COPY of an equal one. */
  lemma TextResolves(inp: seq<byte>, upto: nat, out: seq<byte>, marks: set<nat>, m: map<nat, nat>, img: map<nat, nat>, x: nat)
    requires Translated(inp, upto, out, marks, m, img) && x in m && x < upto && TextAt(inp, x)
    ensures Resolve(inp, x) == Some(x) && Resolve(out, m[x]).Some?
    ensures var r := Resolve(out, m[x]).value; TextAt(out, r) && Scan(inp, x).value.0 == Scan(out, r).value.0
  {
    hide Path, PadAt, Translated, Carried;
    Unfold(inp, upto, out, marks, m, img);
    LocalAt(inp, upto, out, marks, m, img, x);
    LinkTwins(inp, upto, out, marks, m, img, x);
    ScanPad(inp, x);
    ScanPad(out, m[x]);
    hide Scan, Mapped, Spelled;
  }

  /** Twins have the same shape, and their children are twins again. */
  lemma HeadTwins(inp: seq<byte>, upto: nat, out: seq<byte>, marks: set<nat>,
                  m: map<nat, nat>, img: map<nat, nat>, x: nat, y: nat)
    requires Translated(inp, upto, out, marks, m, img) && Twins(inp, upto, out, m, x, y)
    requires Settled(inp, x) && Settled(out, y)
    ensures Head(inp, x).Some? && Head(out, y).Some?
    ensures var n, l := Head(inp, x).value, Head(out, y).value;
            && n.shape == l.shape && |n.kids| == |l.kids|
            && forall j :: 0 <= j < |n.kids| ==> Twins(inp, upto, out, m, n.kids[j], l.kids[j])
  {
    hide Scan, Path, PadAt, Translated, Carried;
    Unfold(inp, upto, out, marks, m, img);
    if TextAt(inp, x) && TextAt(out, y) && Scan(inp, x).value.0 == Scan(out, y).value.0 {
    } else {
      LocalAt(inp, upto, out, marks, m, img, x);
      var (t, q) := Scan(inp, x).value;
      var (u, r) := Scan(out, y).value;
      match t
      case Refer(z) =>
        LinkTwins(inp, upto, out, marks, m, img, z);
      case ObjectV(_, z) =>
        LinkTwins(inp, upto, out, marks, m, img, z);
        assert Wants(t) + [Item][1..] == [Item];
      case Open(_, _) =>
        assert Wants(t) + [Item][1..] == Wants(t);
        if IsObject(t) {
          ObjectTwins(inp, upto, out, marks, m, img, x);
        } else {
          ChainLockStep(inp, upto, out, marks, m, img, q, Wants(t));
        }
      case _ =>
    }
  }

  lemma Unfold(inp: seq<byte>, upto: nat, out: seq<byte>, marks: set<nat>, m: map<nat, nat>, img: map<nat, nat>)
    requires Translated(inp, upto, out, marks, m, img)
    ensures Carried(inp, upto, out, marks, m, img) && Mapped(inp, upto, out, marks, m, img) && Spelled(inp, upto)
  {
  }

  lemma ObjectTwins(inp: seq<byte>, upto: nat, out: seq<byte>, marks: set<nat>,
                    m: map<nat, nat>, img: map<nat, nat>, x: nat)
    requires Translated(inp, upto, out, marks, m, img) && x in m && x < upto
    requires Scan(inp, x).Some? && IsObject(Scan(inp, x).value.0)
    ensures Head(inp, x).Some? && Head(out, m[x]).Some?
    ensures var n, l := Head(inp, x).value, Head(out, m[x]).value;
            && n.shape == l.shape && |n.kids| == |l.kids| == 2
            && Twins(inp, upto, out, m, n.kids[0], l.kids[0]) && Twins(inp, upto, out, m, n.kids[1], l.kids[1])
  {
    hide Scan, Path, PadAt, Translated, Carried, Mapped, Spelled;
    Unfold(inp, upto, out, marks, m, img);
    LocalAt(inp, upto, out, marks, m, img, x);
    var (t, q) := Scan(inp, x).value;
    var (u, r) := Scan(out, m[x]).value;
    var (c, e) := Scan(inp, q).value;
    assert [Key, Item] + [Item][1..] == [Key, Item];
    assert Parse(inp, e, [Item]).Some? && Parse(inp, e, [Item]).value <= upto by {
      assert Wants(c) + [Key, Item][1..] == [Item];
    }
    LockStep(inp, upto, out, marks, m, img, e, [Item]);
    LinkTwins(inp, upto, out, marks, m, img, q);
    ChainObject(inp, q, e);
    if u == t {
      ChainObject(out, r, m[e]);
    }
  }

  /** A translation preserves meaning: at every depth, an item and its image denote the same tree,
      and nothing in it is malformed. */
  lemma {:induction false} SameMeaning(inp: seq<byte>, upto: nat, out: seq<byte>, marks: set<nat>,
                                       m: map<nat, nat>, img: map<nat, nat>, x: nat, y: nat, d: nat)
    requires Translated(inp, upto, out, marks, m, img) && Twins(inp, upto, out, m, x, y)
    ensures Meaning(inp, x, d) == Meaning(out, y, d)
    ensures Clean(Meaning(inp, x, d))
    decreases d
  {
    hide Scan, Path, PadAt, Translated, Twins, Resolve, Head, Meaning;
    if d == 0 {
      assert Meaning(inp, x, d) == Cut == Meaning(out, y, d) by { MeaningCut(inp, x); MeaningCut(out, y); }
    } else {
      ResolveTwins(inp, upto, out, marks, m, img, x, y);
      ResolveFixed(inp, x);
      ResolveFixed(out, y);
      HeadTwins(inp, upto, out, marks, m, img, Resolve(inp, x).value, Resolve(out, y).value);
      MeaningStep(inp, x, d);
      MeaningStep(out, y, d);
      var n, l := Head(inp, Resolve(inp, x).value).value, Head(out, Resolve(out, y).value).value;
      forall j | 0 <= j < |n.kids|
        ensures Meaning(inp, n.kids[j], d - 1) == Meaning(out, l.kids[j], d - 1)
        ensures Clean(Meaning(inp, n.kids[j], d - 1))
      {
        SameMeaning(inp, upto, out, marks, m, img, n.kids[j], l.kids[j], d - 1);
      }
      assert Meaning(inp, x, d).kids == Meaning(out, y, d).kids;
    }
  }
}
