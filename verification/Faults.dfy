/** How a translation that bends the rules gives itself away: by counting tags against places, and by the
    trees of strings that changed their form. */
module Faults {
  import opened Varint
  import opened Wire
  import opened Mapping

  // ----- counting -----

  /** Places opened less items read, by the tags from p up to e. */
  ghost function Balance(b: seq<byte>, p: nat, e: nat): int
    decreases e - p
  {
    if p >= e then 0
    else match Scan(b, p)
      case None => 0
      case Some((t, q)) => |Wants(t)| - 1 + Balance(b, q, e)
  }

  lemma {:induction false} WalkBalance(b: seq<byte>, p: nat, todo: seq<Want>)
    requires Walk(b, p, todo).Some?
    ensures var (e, left) := Walk(b, p, todo).value; Balance(b, p, e) == |left| - |todo|
    decreases |b| - p
  {
    var e := Walk(b, p, todo).value.0;
    if todo != [] && p < |b| {
      var (t, q) := Scan(b, p).value;
      WalkBalance(b, q, Behind(t, todo));
      assert Walk(b, q, Behind(t, todo)).Some?;
      assert p < e;
    }
  }

  lemma ParseBalance(b: seq<byte>, p: nat, todo: seq<Want>)
    requires Parse(b, p, todo).Some?
    ensures Balance(b, p, Parse(b, p, todo).value) == -|todo|
  {
    hide Scan;
    ParseWalk(b, p, todo);
    WalkBalance(b, p, todo);
  }

  /** Objects from p up to e whose class name is a COPY. */
  ghost function Borrowed(b: seq<byte>, p: nat, e: nat): (n: nat)
    decreases e - p
  {
    if p >= e then 0
    else match Scan(b, p)
      case None => 0
      case Some((t, q)) =>
        (if IsObject(t) && Scan(b, q).Some? && Scan(b, q).value.0.Copy? then 1 else 0) + Borrowed(b, q, e)
  }

  /** None means that class names are spelled out. */
  lemma {:induction false} NoneBorrowed(b: seq<byte>, p: nat, e: nat)
    requires Sound(b) && Path(b, 1, p) && 1 <= p
    ensures Borrowed(b, p, e) == 0 <==>
      forall q: nat :: Path(b, p, q) && q < e && Scan(b, q).Some? && IsObject(Scan(b, q).value.0) ==> TextAt(b, Scan(b, q).value.1)
    decreases e - p
  {
    hide Sound;
    if p < e && Scan(b, p).Some? {
      var q := Scan(b, p).value.1;
      PathStep(b, 1, p);
      NoneBorrowed(b, q, e);
      SoundAt(b, p);
      forall x: nat | Path(b, p, x)
        ensures x == p || Path(b, q, x)
      {
      }
      assert Path(b, p, p);
    } else {
      forall x: nat | Path(b, p, x) && x < e && Scan(b, x).Some?
        ensures false
      {
        PathOrder(b, p, x);
      }
    }
  }

  lemma SoundAt(b: seq<byte>, p: nat)
    requires Sound(b) && Path(b, 1, p) && Scan(b, p).Some?
    ensures TagSound(b, p)
  {
  }

  lemma SpelledNone(b: seq<byte>, p: nat, upto: nat)
    requires Sound(b) && Path(b, 1, p) && 1 <= p && Spelled(b, upto)
    ensures Borrowed(b, p, upto) == 0
  {
    hide Scan, Sound;
    NoneBorrowed(b, p, upto);
    forall q: nat | Path(b, p, q)
      ensures Path(b, 1, q)
    {
      PathTrans(b, 1, p, q);
    }
  }

  /** One tag more. */
  lemma BalanceNext(b: seq<byte>, p: nat, e: nat)
    requires Scan(b, p).Some? && p < e
    ensures Balance(b, p, e) == |Wants(Scan(b, p).value.0)| - 1 + Balance(b, Scan(b, p).value.1, e)
  {
    hide Scan;
  }

  lemma BorrowedNext(b: seq<byte>, p: nat, e: nat)
    requires Scan(b, p).Some? && p < e
    ensures var (t, q) := Scan(b, p).value;
            Borrowed(b, p, e) == Borrowed(b, q, e) + (if IsObject(t) && Scan(b, q).Some? && Scan(b, q).value.0.Copy? then 1 else 0)
  {
    hide Scan;
  }

  /** What one step of a translation does to the count. */
  lemma StepBalance(inp: seq<byte>, i: nat, out: seq<byte>, marks: set<nat>, m: map<nat, nat>, img: map<nat, nat>)
    requires Local(inp, i, out, marks, m, img) && !IsObject(Scan(inp, i).value.0)
    ensures var (t, q) := Scan(inp, i).value;
            q in m && m[q] == Scan(out, m[i]).value.1 && |Wants(Scan(out, m[i]).value.0)| == |Wants(t)|
  {
    hide Scan;
  }

  lemma StepBalanceObject(inp: seq<byte>, i: nat, upto: nat, out: seq<byte>, marks: set<nat>, m: map<nat, nat>, img: map<nat, nat>,
                          last: nat)
    requires Local(inp, i, out, marks, m, img) && IsObject(Scan(inp, i).value.0)
    requires var e := Scan(inp, Scan(inp, i).value.1).value.1; e <= upto && e in m && m[e] <= last
    ensures var e := Scan(inp, Scan(inp, i).value.1).value.1;
            && m[i] < m[e]
            && Balance(inp, i, upto) == Balance(inp, e, upto)
            && Balance(out, m[i], last) == Balance(out, m[e], last) - (Borrowed(inp, i, upto) - Borrowed(inp, e, upto))
  {
    var (t, q) := Scan(inp, i).value;
    hide Scan;
    BalanceNext(inp, i, upto);
    BalanceNext(inp, q, upto);
    BorrowedNext(inp, i, upto);
    BorrowedNext(inp, q, upto);
    BalanceNext(out, m[i], last);
    if Scan(out, m[i]).value.0 == t {
      BalanceNext(out, Scan(out, m[i]).value.1, last);
    }
  }

  lemma NothingCounted(inp: seq<byte>, out: seq<byte>, e: nat, o: nat)
    ensures Balance(inp, e, e) == 0 && Balance(out, o, o) == 0 && Borrowed(inp, e, e) == 0
  {
  }

  lemma LocalShape(inp: seq<byte>, i: nat, out: seq<byte>, marks: set<nat>, m: map<nat, nat>, img: map<nat, nat>)
    requires Local(inp, i, out, marks, m, img)
    ensures i in m && Scan(inp, i).Some? && Scan(out, m[i]).Some?
    ensures IsObject(Scan(inp, i).value.0) ==>
      Scan(inp, Scan(inp, i).value.1).Some? && Scan(inp, Scan(inp, i).value.1).value.1 in m
  {
    hide Scan;
  }

  /** What became of an object whose class name is spelled out. */
  lemma ObjectShape(inp: seq<byte>, i: nat, out: seq<byte>, marks: set<nat>, m: map<nat, nat>, img: map<nat, nat>)
    requires Local(inp, i, out, marks, m, img) && IsObject(Scan(inp, i).value.0) && TextAt(inp, Scan(inp, i).value.1)
    ensures var (t, q) := Scan(inp, i).value;
            var (c, e) := Scan(inp, q).value;
            && e in m && q in img && TextAt(out, img[q]) && Scan(out, m[i]).Some?
            && var (u, r) := Scan(out, m[i]).value;
            || (u == t && img[q] == r && Scan(out, r) == Some((c, m[e])))
            || (u == ObjectV(t.tag, img[q]) && 0 < img[q] < m[i] && m[e] == r)
  {
    hide Scan;
  }

  /** The output has as many places to fill as the source, but for one fewer for each class name that is a COPY. */
  lemma {:induction false} MappedBalance(inp: seq<byte>, upto: nat, out: seq<byte>, marks: set<nat>,
                                         m: map<nat, nat>, img: map<nat, nat>, i: nat)
    requires Mapped(inp, upto, out, marks, m, img) && i in m
    ensures m[i] <= m[upto]
    ensures Balance(out, m[i], m[upto]) == Balance(inp, i, upto) - Borrowed(inp, i, upto)
    decreases upto - i
  {
    hide Scan, Path, Local, Balance, Borrowed;
    if i == upto {
      NothingCounted(inp, out, upto, m[upto]);
    } else {
      assert Local(inp, i, out, marks, m, img);
      LocalShape(inp, i, out, marks, m, img);
      var (t, q) := Scan(inp, i).value;
      if IsObject(t) {
        var e := Scan(inp, q).value.1;
        MappedBalance(inp, upto, out, marks, m, img, e);
        StepBalanceObject(inp, i, upto, out, marks, m, img, m[upto]);
      } else {
        StepBalance(inp, i, out, marks, m, img);
        MappedBalance(inp, upto, out, marks, m, img, q);
        BalanceNext(inp, i, upto);
        BorrowedNext(inp, i, upto);
        BalanceNext(out, m[i], m[upto]);
      }
    }
  }

  /** Counting up to a boundary and on from there. */
  lemma {:induction false} BalanceJoin(b: seq<byte>, p: nat, q: nat, e: nat)
    requires Path(b, p, q) && q <= e
    ensures Balance(b, p, e) == Balance(b, p, q) + Balance(b, q, e)
    decreases |b| - p
  {
    PathOrder(b, p, q);
    if p != q {
      PathOrder(b, Scan(b, p).value.1, q);
      hide Scan;
      BalanceJoin(b, Scan(b, p).value.1, q, e);
      BalanceNext(b, p, q);
      BalanceNext(b, p, e);
    }
  }

  /** The images of boundaries are reached one from the other. */
  lemma {:induction false} MappedPath(inp: seq<byte>, upto: nat, out: seq<byte>, marks: set<nat>,
                                      m: map<nat, nat>, img: map<nat, nat>, i: nat)
    requires Mapped(inp, upto, out, marks, m, img) && i in m
    ensures Path(out, m[i], m[upto])
    decreases upto - i
  {
    if i < upto {
      assert Local(inp, i, out, marks, m, img);
      var (t, q) := Scan(inp, i).value;
      if IsObject(t) {
        var e := Scan(inp, q).value.1;
        assert e in m;
        MappedPath(inp, upto, out, marks, m, img, e);
      } else {
        MappedPath(inp, upto, out, marks, m, img, q);
      }
    }
  }

  // ----- strings that changed their form -----

  /** The string at q, inside the item at x, has an image in another form. */
  ghost predicate Changed(inp: seq<byte>, out: seq<byte>, img: map<nat, nat>, x: nat, q: nat) {
    && Path(inp, 1, q) && TextAt(inp, q) && q in img && !FormKept(inp, out, img, q)
    && Parse(inp, x, [Item]).Some? && x <= q < Parse(inp, x, [Item]).value
  }

  /** Of several items one after the other, the one a position lies in. */
  lemma {:induction false} ChainFind(b: seq<byte>, p: nat, wants: seq<Want>, q: nat) returns (j: nat)
    requires Parse(b, p, wants).Some? && p <= q < Parse(b, p, wants).value
    ensures Chain(b, p, wants).Some? && j < |wants|
    ensures var k := Chain(b, p, wants).value[j]; Parse(b, k, [Item]).Some? && k <= q < Parse(b, k, [Item]).value
    decreases |wants|
  {
    hide Scan;
    assert wants != [];
    assert wants == [wants[0]] + wants[1..];
    ParseSplit(b, p, [wants[0]], wants[1..]);
    var e := Parse(b, p, [wants[0]]).value;
    ChainStep(b, p, e, wants[0], wants[1..]);
    AnyWant(b, p, wants[0]);
    ChainSome(b, e, wants[1..]);
    j := 0;
    if e <= q {
      var i := ChainFind(b, e, wants[1..], q);
      j := i + 1;
    }
  }

  lemma AnyWant(b: seq<byte>, p: nat, w: Want)
    requires Parse(b, p, [w]).Some?
    ensures Parse(b, p, [Item]) == Parse(b, p, [w])
  {
    hide Scan;
    assert [w][1..] == [Item][1..];
  }

  lemma {:induction false} ChainSome(b: seq<byte>, p: nat, wants: seq<Want>)
    requires Parse(b, p, wants).Some?
    ensures Chain(b, p, wants).Some?
    decreases |wants|
  {
    hide Scan;
    if wants != [] {
      assert wants == [wants[0]] + wants[1..];
      ParseSplit(b, p, [wants[0]], wants[1..]);
      ChainSome(b, Parse(b, p, [wants[0]]).value, wants[1..]);
    }
  }

  /** A child that differs makes its parent differ. */
  lemma KidShows(inp: seq<byte>, out: seq<byte>, x: nat, y: nat, j: nat, d: nat)
    requires Settled(inp, x) && Settled(out, y) && Head(inp, x).Some? && Head(out, y).Some?
    requires j < |Head(inp, x).value.kids| && j < |Head(out, y).value.kids|
    requires Meaning(inp, Head(inp, x).value.kids[j], d) != Meaning(out, Head(out, y).value.kids[j], d)
    ensures Meaning(inp, x, d + 1) != Meaning(out, y, d + 1)
  {
    hide Scan, Head, Resolve;
    ResolveSettled(inp, x);
    ResolveSettled(out, y);
    MeaningStep(inp, x, d + 1);
    MeaningStep(out, y, d + 1);
  }

  lemma TextMeaning(b: seq<byte>, p: nat)
    requires TextAt(b, p)
    ensures Settled(b, p) && Meaning(b, p, 1) == Tree(Scan(b, p).value.0, [])
  {
    ResolveSettled(b, p);
    assert Head(b, p) == Some(Node(Scan(b, p).value.0, []));
    hide Scan, Resolve, Head;
    MeaningStep(b, p, 1);
    assert Meaning(b, p, 1).kids == [];
  }

  /** A string that became a COPY of one in another form. */
  lemma TextShows(inp: seq<byte>, out: seq<byte>, marks: set<nat>, m: map<nat, nat>, img: map<nat, nat>, x: nat)
    requires Local(inp, x, out, marks, m, img) && TextAt(inp, x) && x in img && !FormKept(inp, out, img, x)
    ensures Meaning(inp, x, 1) != Meaning(out, m[x], 1)
  {
    var v := img[x];
    TextMeaning(inp, x);
    TextMeaning(out, v);
    hide Meaning;
    assert Scan(out, m[x]).value.0 == Copy(v);
    assert Resolve(out, m[x]) == Some(v) && Resolve(out, v) == Some(v);
    hide Scan, Resolve;
    SameResolve(out, m[x], v, 1);
  }

  lemma SameResolve(b: seq<byte>, p: nat, q: nat, d: nat)
    requires Resolve(b, p) == Resolve(b, q)
    ensures Meaning(b, p, d) == Meaning(b, q, d)
  {
  }

  lemma PadShows(inp: seq<byte>, x: nat, d: nat)
    requires PadAt(inp, x)
    ensures Meaning(inp, x, d) == Meaning(inp, x + 1, d) && Parse(inp, x, [Item]) == Parse(inp, x + 1, [Item])
  {
    ScanPad(inp, x);
    ParseItem(inp, x);
    hide Scan;
    SameResolve(inp, x, x + 1, d);
  }

  /** The children of a container and of its image. */
  lemma GroupKids(inp: seq<byte>, upto: nat, out: seq<byte>, marks: set<nat>, m: map<nat, nat>, img: map<nat, nat>, x: nat)
    requires Carried(inp, upto, out, marks, m, img) && x in m && x < upto
    requires Scan(inp, x).Some? && Scan(inp, x).value.0.Open? && !IsObject(Scan(inp, x).value.0)
    ensures Settled(inp, x) && Settled(out, m[x]) && Head(inp, x).Some? && Head(out, m[x]).Some?
    ensures var (t, q) := Scan(inp, x).value;
            && Parse(inp, x, [Item]) == Parse(inp, q, Wants(t)) && Chain(inp, q, Wants(t)) == Some(Head(inp, x).value.kids)
            && Parse(inp, q, Wants(t)).Some? && Parse(inp, q, Wants(t)).value <= upto
    ensures var ks, ls := Head(inp, x).value.kids, Head(out, m[x]).value.kids;
            |ks| == |ls| && forall j :: 0 <= j < |ks| ==> ks[j] in m && ks[j] < upto && ls[j] == m[ks[j]]
  {
    hide Path, Carried;
    Parts(inp, upto, out, marks, m, img);
    LocalAt(inp, upto, out, marks, m, img, x);
    var (t, q) := Scan(inp, x).value;
    ParseItem(inp, x);
    SettledShape(inp, x, out, marks, m, img);
    assert Scan(out, m[x]).value == (t, m[q]);
    hide Scan, Local, Mapped, Spelled, Wants;
    ChainLockStep(inp, upto, out, marks, m, img, q, Wants(t));
  }

  lemma Parts(inp: seq<byte>, upto: nat, out: seq<byte>, marks: set<nat>, m: map<nat, nat>, img: map<nat, nat>)
    requires Carried(inp, upto, out, marks, m, img)
    ensures Mapped(inp, upto, out, marks, m, img) && Spelled(inp, upto) && Sound(inp) && Path(inp, 1, upto)
    ensures Parse(inp, 1, [Item]) == Some(upto)
  {
  }

  /** The class name and the value of an object, and where their images are. */
  lemma ObjectKids(inp: seq<byte>, upto: nat, out: seq<byte>, marks: set<nat>, m: map<nat, nat>, img: map<nat, nat>, x: nat)
    requires Carried(inp, upto, out, marks, m, img) && x in m && x < upto
    requires Scan(inp, x).Some? && IsObject(Scan(inp, x).value.0)
    ensures Settled(inp, x) && Settled(out, m[x]) && Head(inp, x).Some? && Head(out, m[x]).Some?
    ensures var q := Scan(inp, x).value.1;
            && TextAt(inp, q) && q in img && TextAt(out, img[q])
            && var e := Scan(inp, q).value.1;
            && e in m && e < upto && Parse(inp, x, [Item]) == Parse(inp, e, [Item])
            && Head(inp, x).value.kids == [q, e] && Head(out, m[x]).value.kids == [img[q], m[e]]
  {
    hide Path, PadAt, Carried, Mapped, Spelled, Local;
    Parts(inp, upto, out, marks, m, img);
    LocalAt(inp, upto, out, marks, m, img, x);
    SettledShape(inp, x, out, marks, m, img);
    ObjectShape(inp, x, out, marks, m, img);
    var (t, q) := Scan(inp, x).value;
    hide Scan;
    var (u, r) := Scan(out, m[x]).value;
    var (c, e) := Scan(inp, q).value;
    assert [Key, Item] + [Item][1..] == [Key, Item];
    assert Parse(inp, x, [Item]) == Parse(inp, e, [Item]) by {
      assert Wants(c) + [Key, Item][1..] == [Item];
    }
    LockStep(inp, upto, out, marks, m, img, e, [Item]);
    ChainObject(inp, q, e);
    if u == t {
      ChainObject(out, r, m[e]);
    }
  }

  /** The same for an object whose class name is pointed at: its value. */
  lemma ObjectvKids(inp: seq<byte>, upto: nat, out: seq<byte>, marks: set<nat>, m: map<nat, nat>, img: map<nat, nat>, x: nat)
    requires Carried(inp, upto, out, marks, m, img) && x in m && x < upto
    requires Scan(inp, x).Some? && Scan(inp, x).value.0.ObjectV?
    ensures Settled(inp, x) && Settled(out, m[x]) && Head(inp, x).Some? && Head(out, m[x]).Some?
    ensures var q := Scan(inp, x).value.1;
            && q in m && q < upto && Parse(inp, x, [Item]) == Parse(inp, q, [Item])
            && |Head(inp, x).value.kids| == |Head(out, m[x]).value.kids| == 2
            && Head(inp, x).value.kids[1] == q && Head(out, m[x]).value.kids[1] == m[q]
  {
    hide Path, PadAt, Carried, Spelled;
    Parts(inp, upto, out, marks, m, img);
    LocalAt(inp, upto, out, marks, m, img, x);
    SettledShape(inp, x, out, marks, m, img);
    ParseItem(inp, x);
    var z := Scan(inp, x).value.0.target;
    assert ImageOf(inp, z, out, marks, m, img[z]);
    hide Scan, Mapped;
  }

  /** A string that changed its form shows in what the item means. */
  lemma {:induction false} FormShows(inp: seq<byte>, upto: nat, out: seq<byte>, marks: set<nat>,
                                     m: map<nat, nat>, img: map<nat, nat>, x: nat, q: nat) returns (d: nat)
    requires Carried(inp, upto, out, marks, m, img) && x in m && x < upto && Changed(inp, out, img, x, q)
    ensures Meaning(inp, x, d) != Meaning(out, m[x], d)
    decreases |inp| - x
  {
    hide Scan, Path, Carried, Mapped, Spelled, Sound, Local, Meaning, Head, FormKept, Parse, PadAt;
    Parts(inp, upto, out, marks, m, img);
    LocalAt(inp, upto, out, marks, m, img, x);
    var (t, r) := Scan(inp, x).value;
    Inside(inp, x, q);
    if t.Text? {
      TextShows(inp, out, marks, m, img, x);
      d := 1;
    } else if t.Pad? {
      LinkShape(inp, x, out, marks, m, img);
      ScanPad(inp, x);
      ScanPad(out, m[x]);
      PadShows(inp, x, 0);
      ParseItem(inp, x + 1);
      d := FormShows(inp, upto, out, marks, m, img, x + 1, q);
      PadShows(inp, x, d);
      PadShows(out, m[x], d);
    } else if IsObject(t) {
      ObjectKids(inp, upto, out, marks, m, img, x);
      var e := Scan(inp, r).value.1;
      if q == r {
        TextMeaning(inp, q);
        TextMeaning(out, img[q]);
        TextChanged(inp, out, img, q);
        KidShows(inp, out, x, m[x], 0, 1);
        d := 2;
      } else {
        InsideObject(inp, x, q);
        d := FormShows(inp, upto, out, marks, m, img, e, q);
        KidShows(inp, out, x, m[x], 1, d);
        d := d + 1;
      }
    } else if t.ObjectV? {
      ObjectvKids(inp, upto, out, marks, m, img, x);
      d := FormShows(inp, upto, out, marks, m, img, r, q);
      KidShows(inp, out, x, m[x], 1, d);
      d := d + 1;
    } else {
      assert t.Open?;
      GroupKids(inp, upto, out, marks, m, img, x);
      var j := ChainFind(inp, r, Wants(t), q);
      var k := Head(inp, x).value.kids[j];
      ChainAfter(inp, r, Wants(t), j);
      d := FormShows(inp, upto, out, marks, m, img, k, q);
      KidShows(inp, out, x, m[x], j, d);
      d := d + 1;
    }
  }

  lemma TextChanged(inp: seq<byte>, out: seq<byte>, img: map<nat, nat>, q: nat)
    requires q in img && TextAt(inp, q) && !FormKept(inp, out, img, q) && TextAt(out, img[q])
    ensures Scan(inp, q).value.0 != Scan(out, img[q]).value.0
  {
    hide Scan;
  }

  /** A string inside the item at x is that item, or lies behind its tag. */
  lemma Inside(b: seq<byte>, x: nat, q: nat)
    requires Path(b, 1, x) && Path(b, 1, q) && Scan(b, x).Some? && TextAt(b, q)
    requires Parse(b, x, [Item]).Some? && x <= q < Parse(b, x, [Item]).value
    ensures var (t, r) := Scan(b, x).value;
            && (t.Text? ==> q == x) && (!t.Text? ==> r <= q)
            && (t.Text? || t.Pad? || t.Open? || t.ObjectV?)
  {
    var (t, r) := Scan(b, x).value;
    ParseItem(b, x);
    hide Scan;
    if x < q {
      PathNoGap(b, 1, x, q);
    }
    assert !t.Text? && !t.Pad? && !t.Open? && !t.ObjectV? ==> Wants(t) == [] && !t.Other?;
    assert t.Text? ==> Wants(t) == [];
  }

  lemma InsideObject(b: seq<byte>, x: nat, q: nat)
    requires Path(b, 1, x) && Path(b, 1, q) && Scan(b, x).Some? && TextAt(b, Scan(b, x).value.1) && Scan(b, x).value.1 < q
    ensures Scan(b, Scan(b, x).value.1).value.1 <= q
  {
    PathStep(b, 1, x);
    hide Scan;
    PathNoGap(b, 1, Scan(b, x).value.1, q);
  }

  /** The items of a chain begin at or behind its start. */
  lemma {:induction false} ChainAfter(b: seq<byte>, p: nat, wants: seq<Want>, j: nat)
    requires Chain(b, p, wants).Some? && j < |wants|
    ensures p <= Chain(b, p, wants).value[j]
    decreases |wants|
  {
    hide Scan, Parse;
    if j > 0 {
      ChainAfter(b, Parse(b, p, [wants[0]]).value, wants[1..], j - 1);
    }
  }
}
