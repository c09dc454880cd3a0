/** The control stack of the splitter: what it says is still to be written, and why it runs empty. */
module SplitterState {
  import opened Varint
  import opened Wire
  import opened Mapping
  import opened Splitting

  /** An entry of the control stack.  A jump stands for two words of the source: the marker, and the
      position to go to. */
  datatype Status = Value | DeepnessUp | Jump(to: nat) | TrackNext | DontCheck

  function Top(s: seq<Status>): Status
    requires s != []
  {
    s[|s| - 1]
  }

  function Below(s: seq<Status>): seq<Status>
    requires s != []
  {
    s[..|s| - 1]
  }

  /** The positions of the items still to be written, when the reader is at pos and the stack is s. */
  ghost function Pending(b: seq<byte>, pos: nat, s: seq<Status>): (r: Option<seq<nat>>)
    decreases |s|
  {
    if s == [] then Some([])
    else match Top(s)
      case Value =>
        (match Parse(b, pos, [Item])
         case None => None
         case Some(e) =>
           if e > End(b) then None
           else match Pending(b, e, Below(s))
                case None => None
                case Some(xs) => Some([pos] + xs))
      case Jump(to) => Pending(b, to, Below(s))
      case _ => Pending(b, pos, Below(s))
  }

  function Values(n: nat): (s: seq<Status>)
    ensures |s| == n && forall k :: 0 <= k < n ==> s[k] == Value
  {
    seq(n, _ => Value)
  }

  /** The first of several items in a row. */
  lemma PendingFirst(b: seq<byte>, pos: nat, wants: seq<Want>)
    requires wants != [] && Parse(b, pos, wants).Some?
    ensures Parse(b, pos, [wants[0]]).Some? && Parse(b, pos, [Item]) == Parse(b, pos, [wants[0]])
    ensures Parse(b, Parse(b, pos, [wants[0]]).value, wants[1..]) == Parse(b, pos, wants)
    ensures Parse(b, pos, [wants[0]]).value <= Parse(b, pos, wants).value
  {
    hide Scan;
    assert wants == [wants[0]] + wants[1..];
    ParseSplit(b, pos, [wants[0]], wants[1..]);
    if wants[0] == Key {
      KeyItem(b, pos);
    }
  }

  lemma ValuesOn(s: seq<Status>, n: nat)
    requires n > 0
    ensures var t := s + Values(n); t != [] && Top(t) == Value && Below(t) == s + Values(n - 1)
  {
  }

  /** Several values on the stack stand for as many items in a row. */
  lemma {:induction false} PendingValues(b: seq<byte>, pos: nat, s: seq<Status>, wants: seq<Want>)
    requires Parse(b, pos, wants).Some? && Pending(b, Parse(b, pos, wants).value, s).Some?
    requires Parse(b, pos, wants).value <= End(b)
    ensures Chain(b, pos, wants).Some?
    ensures Pending(b, pos, s + Values(|wants|)) ==
            Some(Chain(b, pos, wants).value + Pending(b, Parse(b, pos, wants).value, s).value)
    decreases |wants|
  {
    if wants == [] {
      PendingNone(b, pos, s);
    } else {
      PendingFirst(b, pos, wants);
      hide Scan, End, Parse, KeyLike, Pending, Chain, Values;
      PendingValues(b, Parse(b, pos, [wants[0]]).value, s, wants[1..]);
      PendingJoined(b, pos, s, wants, |wants|);
    }
  }

  lemma PendingJoined(b: seq<byte>, pos: nat, s: seq<Status>, wants: seq<Want>, n: nat)
    requires n > 0 && |wants| == n && Parse(b, pos, wants).Some? && Parse(b, pos, wants).value <= End(b)
    requires Pending(b, Parse(b, pos, wants).value, s).Some?
    requires Parse(b, pos, [wants[0]]).Some? && Parse(b, pos, [Item]) == Parse(b, pos, [wants[0]])
    requires Parse(b, pos, [wants[0]]).value <= Parse(b, pos, wants).value
    requires var e := Parse(b, pos, [wants[0]]).value;
             && Chain(b, e, wants[1..]).Some?
             && Pending(b, e, s + Values(n - 1)) == Some(Chain(b, e, wants[1..]).value + Pending(b, Parse(b, pos, wants).value, s).value)
    ensures Chain(b, pos, wants).Some?
    ensures Pending(b, pos, s + Values(n)) == Some(Chain(b, pos, wants).value + Pending(b, Parse(b, pos, wants).value, s).value)
  {
    hide Scan, End, Parse, KeyLike, Pending, Values;
    var e := Parse(b, pos, [wants[0]]).value;
    PendingMore(b, pos, s, n);
    var ks, xs := Chain(b, e, wants[1..]).value, Pending(b, Parse(b, pos, wants).value, s).value;
    assert [pos] + (ks + xs) == ([pos] + ks) + xs;
  }

  lemma PendingNone(b: seq<byte>, pos: nat, s: seq<Status>)
    requires Pending(b, pos, s).Some?
    ensures Parse(b, pos, []) == Some(pos) && Chain(b, pos, []) == Some([])
    ensures Pending(b, pos, s + Values(0)) == Some([] + Pending(b, pos, s).value)
  {
    hide Pending;
    assert s + Values(0) == s;
    var xs := Pending(b, pos, s).value;
    assert [] + xs == xs;
  }

  /** One value more, in front of n - 1. */
  lemma PendingMore(b: seq<byte>, pos: nat, s: seq<Status>, n: nat)
    requires n > 0 && Parse(b, pos, [Item]).Some? && Parse(b, pos, [Item]).value <= End(b)
    requires Pending(b, Parse(b, pos, [Item]).value, s + Values(n - 1)).Some?
    ensures Pending(b, pos, s + Values(n)) == Some([pos] + Pending(b, Parse(b, pos, [Item]).value, s + Values(n - 1)).value)
  {
    hide Parse, End;
    ValuesOn(s, n);
  }

  function Ups(s: seq<Status>): nat {
    if s == [] then 0 else Ups(Below(s)) + (if Top(s).DeepnessUp? then 1 else 0)
  }

  /** The stack: `rest` top-level elements still to come, and above them what belongs to the element in
      hand, whose lowest entry closes it. */
  predicate Shape(s: seq<Status>, rest: nat, deepness: int) {
    && rest <= |s| && (forall k :: 0 <= k < rest ==> s[k] == Value)
    && (rest < |s| ==> s[rest] == DeepnessUp) && deepness == Ups(s)
  }

  predicate Plain(s: seq<Status>) {
    forall k :: 0 <= k < |s| ==> !s[k].TrackNext? && !s[k].DontCheck?
  }

  /** A COPY that carries the track flag is being replaced by its string, which is to be flagged too and
      not to be deduplicated: three entries announce that, and two flags remember it. */
  predicate Held(s: seq<Status>, force: bool, dont: bool) {
    || (|s| >= 3 && s[|s| - 3..] == [Value, TrackNext, DontCheck] && Plain(s[..|s| - 2]) && !force && !dont)
    || (|s| >= 2 && s[|s| - 2..] == [Value, TrackNext] && Plain(s[..|s| - 1]) && !force && dont)
    || (|s| >= 1 && Top(s) == Value && Plain(s) && force && dont)
  }

  predicate Mode(s: seq<Status>, force: bool, dont: bool) {
    Held(s, force, dont) || (Plain(s) && !force && !dont)
  }

  ghost predicate JumpsOnPath(b: seq<byte>, s: seq<Status>) {
    forall k :: 0 <= k < |s| && s[k].Jump? ==> OnPath(b, s[k].to)
  }

  /** A place where the reader may stand. */
  ghost predicate OnPath(b: seq<byte>, pos: nat) {
    1 <= pos <= End(b) && Path(b, 1, pos)
  }

  // ----- the tables -----

  /** The offset table: where an input position leads in the chunk.  While the tag at `next` is being
      written, it may also lead to the end of the chunk. */
  ghost predicate OffsetsOk(b: seq<byte>, out: seq<byte>, src: map<nat, nat>, offsets: map<nat, nat>, next: Option<nat>) {
    forall k :: k in offsets ==>
      || Named(b, out, src, offsets[k], |out|, k)
      || (next.Some? && offsets[k] == |out| && Resolve(b, k) == Resolve(b, next.value))
  }

  /** A string table: where a string stands in the chunk. */
  ghost predicate StringsOk(out: seq<byte>, src: map<nat, nat>, strings: map<seq<byte>, nat>, utf8: bool) {
    forall s :: s in strings ==>
      && 0 < strings[s] < |out| && strings[s] in src && Scan(out, strings[s]).Some?
      && Scan(out, strings[s]).value.0 == Text(utf8, s)
  }

  lemma OffsetsKept(b: seq<byte>, was: seq<byte>, out: seq<byte>, src: map<nat, nat>, src': map<nat, nat>,
                    offsets: map<nat, nat>, next: Option<nat>, i: nat)
    requires OffsetsOk(b, was, src, offsets, next) && src' == src[|was| := i]
    requires 0 < |was| < |out| && out[..|was|] == was && |was| !in src
    requires next.Some? ==> out[|was|] >= HIGH && Resolve(b, next.value) == Resolve(b, i)
    ensures OffsetsOk(b, out, src', offsets, None)
  {
    forall k | k in offsets
      ensures Named(b, out, src', offsets[k], |out|, k)
    {
      if Named(b, was, src, offsets[k], |was|, k) {
        assert out[offsets[k]] == out[..|was|][offsets[k]];
      }
    }
  }

  lemma StringsKept(b: seq<byte>, was: seq<byte>, out: seq<byte>, lo: nat, owed: map<nat, seq<nat>>, src: map<nat, nat>,
                    src': map<nat, nat>, strings: map<seq<byte>, nat>, utf8: bool)
    requires Stream(b, was, lo, owed, src) && StringsOk(was, src, strings, utf8)
    requires |was| <= |out| && out[..|was|] == was
    requires forall v :: v in src ==> v in src'
    ensures StringsOk(out, src', strings, utf8)
  {
    hide Scan, Stream;
    forall j | lo <= j < |was|
      ensures out[j] == was[j]
    {
      assert out[j] == out[..|was|][j];
    }
    forall s | s in strings
      ensures Scan(out, strings[s]) == Scan(was, strings[s])
    {
      KeptTag(b, was, out, lo, owed, src, strings[s]);
    }
  }

  /** A string table after a tag has been written: as before, or with that tag entered. */
  lemma StringsGrow(b: seq<byte>, was: seq<byte>, out: seq<byte>, lo: nat, owed: map<nat, seq<nat>>, src: map<nat, nat>, i: nat,
                    strings: map<seq<byte>, nat>, strings': map<seq<byte>, nat>, utf8: bool, u: Token)
    requires Stream(b, was, lo, owed, src) && StringsOk(was, src, strings, utf8) && 0 < |was| < |out|
    requires out[..|was|] == was && Scan(out, |was|) == Some((u, |out|))
    requires strings' == strings || (u.Text? && u.utf8 == utf8 && strings' == strings[u.content := |was|])
    ensures StringsOk(out, src[|was| := i], strings', utf8)
  {
    hide Scan, Stream;
    StringsKept(b, was, out, lo, owed, src, src[|was| := i], strings, utf8);
  }

  // ----- where elements begin -----

  /** Position `mark` is reached from lo, and is the first at which as little as `left` items are owed. */
  ghost predicate Sealed(out: seq<byte>, lo: nat, owed: map<nat, seq<nat>>, mark: nat, left: nat) {
    && mark in owed && lo <= mark <= |out| && Path(out, lo, mark) && |owed[mark]| == left
    && forall o :: o in owed && o < mark ==> |owed[o]| > left
  }

  /** The tags from p on are the same where the bytes are. */
  lemma {:induction false} PathSame(was: seq<byte>, out: seq<byte>, p: nat, q: nat)
    requires Path(was, p, q) && |was| <= |out| && forall j :: p <= j < |was| ==> out[j] == was[j]
    ensures Path(out, p, q)
    decreases |was| - p
  {
    if p != q {
      KeepTag(was, out, p);
      hide Scan;
      PathSame(was, out, Scan(was, p).value.1, q);
    }
  }

  lemma SealedGrows(b: seq<byte>, was: seq<byte>, out: seq<byte>, lo: nat, owed: map<nat, seq<nat>>, src: map<nat, nat>,
                    mark: nat, left: nat, ks: seq<nat>)
    requires Stream(b, was, lo, owed, src) && Sealed(was, lo, owed, mark, left)
    requires |was| < |out| && out[..|was|] == was
    ensures Sealed(out, lo, owed[|out| := ks], mark, left)
  {
    hide Scan, Paid;
    forall j | lo <= j < |was|
      ensures out[j] == was[j]
    {
      assert out[j] == out[..|was|][j];
    }
    PathSame(was, out, lo, mark);
    hide Path;
  }

  lemma FreshSealed(out: seq<byte>, first: seq<nat>)
    ensures Sealed(out, |out|, map[|out| := first], |out|, |first|)
  {
    PathSelf(out, |out|);
  }

  /** When nothing before the end owes as little as the end does, the end is reached from lo. */
  lemma AllReached(b: seq<byte>, out: seq<byte>, lo: nat, owed: map<nat, seq<nat>>, src: map<nat, nat>, rest: nat)
    requires Fit(b) && Stream(b, out, lo, owed, src) && |owed[|out|]| == rest
    requires forall o :: o in owed && o < |out| ==> |owed[o]| > rest
    ensures Sealed(out, lo, owed, |out|, rest)
  {
    hide Scan, Paid, Parse, Fit, KeyLike;
    InChunk(b, out, lo, owed, src, lo);
    var n := |owed[lo]| - rest;
    WalkItems(b, out, lo, owed, src, lo, Items(n));
    ParsePath(out, lo, Items(n));
  }

  /** On the way to the end of some items, more is owed than there. */
  lemma {:induction false} WalkFirst(b: seq<byte>, out: seq<byte>, lo: nat, owed: map<nat, seq<nat>>, src: map<nat, nat>,
                                     o: nat, todo: seq<Want>, x: nat)
    requires Fit(b) && Stream(b, out, lo, owed, src) && o in owed && |out| in owed
    requires |todo| + |owed[|out|]| <= |owed[o]|
    requires forall k :: 0 <= k < |todo| && todo[k] == Key ==> KeyLike(b, owed[o][k])
    requires Path(out, o, x) && Parse(out, o, todo).Some? && x < Parse(out, o, todo).value
    ensures x in owed && |owed[x]| > |owed[o]| - |todo|
    decreases |out| - o
  {
    hide Scan, Stream, Wants, KeyLike, Stringish, Fit;
    if todo == [] {
      PathOrder(out, o, x);
    } else if x != o {
      InChunk(b, out, lo, owed, src, o);
      Splitting.WalkStep(b, out, lo, owed, src, o);
      var (u, r) := Scan(out, o).value;
      NextDue(b, Wants(u), todo, owed[o], owed[r]);
      WalkFirst(b, out, lo, owed, src, r, Wants(u) + todo[1..], x);
    }
  }

  // ----- termination -----

  /** How many bytes the tag at p takes. */
  function TagSize(b: seq<byte>, p: nat): nat {
    match Scan(b, p)
    case None => 0
    case Some((_, q)) => q - p
  }

  /** More than a step that reads the tag at p can add to the chunk: its bytes, or an offset. */
  function Room(b: seq<byte>, p: nat): nat { TagSize(b, p) + 11 }

  /** What is set aside for the tag at p; for COPY and OBJECTV that includes the string that is read instead. */
  function TagCost(b: seq<byte>, p: nat, t: Token): nat {
    Room(b, p) + 2 + (if t.Copy? || t.ObjectV? then 4 + Room(b, t.target) + 1 else 0)
  }

  /** What it costs to go through the tags from p to e. */
  function Cost(b: seq<byte>, p: nat, e: nat): nat
    decreases |b| - p
  {
    if p >= e then 0
    else match Scan(b, p)
      case None => 0
      case Some((t, q)) => TagCost(b, p, t) + Cost(b, q, e)
  }

  lemma {:induction false} CostSplit(b: seq<byte>, p: nat, m: nat, e: nat)
    requires Path(b, p, m) && m <= e
    ensures Cost(b, p, e) == Cost(b, p, m) + Cost(b, m, e)
    decreases |b| - p
  {
    hide Scan;
    if p != m {
      PathOrder(b, Scan(b, p).value.1, m);
      CostSplit(b, Scan(b, p).value.1, m, e);
    }
  }

  /** The work the stack stands for, when no link has to be expanded. */
  ghost function Work(b: seq<byte>, pos: nat, s: seq<Status>): nat
    decreases |s|
  {
    if s == [] then 0
    else match Top(s)
      case Value => (match Parse(b, pos, [Item]) case None => 0 case Some(e) => Cost(b, pos, e) + Work(b, e, Below(s)))
      case Jump(to) => 1 + Work(b, to, Below(s))
      case _ => 1 + Work(b, pos, Below(s))
  }

  lemma {:induction false} WorkValues(b: seq<byte>, pos: nat, s: seq<Status>, wants: seq<Want>)
    requires Parse(b, pos, wants).Some?
    ensures Work(b, pos, s + Values(|wants|)) ==
            Cost(b, pos, Parse(b, pos, wants).value) + Work(b, Parse(b, pos, wants).value, s)
    decreases |wants|
  {
    hide Scan;
    if wants == [] {
      assert s + Values(0) == s;
    } else {
      assert wants == [wants[0]] + wants[1..];
      ParseSplit(b, pos, [wants[0]], wants[1..]);
      if wants[0] == Key {
        KeyItem(b, pos);
      }
      var e, f := Parse(b, pos, [wants[0]]).value, Parse(b, pos, wants).value;
      WorkValues(b, e, s, wants[1..]);
      assert Below(s + Values(|wants|)) == s + Values(|wants| - 1);
      ParsePath(b, pos, [wants[0]]);
      CostSplit(b, pos, e, f);
    }
  }

  /** The flagged positions of the input that have no place in the chunk yet; the one about to be read
      does not count. */
  function Missing(b: seq<byte>, offsets: map<nat, nat>, pos: nat, s: seq<Status>): set<nat> {
    (set x: nat | 0 <= x < |b| && b[x] >= HIGH && x !in offsets && !(s != [] && Top(s).Value? && x == pos))
  }

  // ----- steps -----

  lemma PlainNotHeld(s: seq<Status>)
    requires Plain(s)
    ensures Mode(s, false, false) && !Held(s, false, false)
  {
    assert |s| >= 3 ==> s[|s| - 1] == s[|s| - 3..][2];
  }

  lemma SameHead(b: seq<byte>, xs: seq<nat>, i: nat, p: seq<nat>)
    requires SameAll(b, xs, [i] + p)
    ensures xs != [] && Same(b, xs[0], i) && SameAll(b, xs[1..], p) && |xs| == 1 + |p|
  {
    hide Resolve;
    forall k | 0 <= k < |p|
      ensures Same(b, xs[1..][k], p[k])
    {
      assert Same(b, xs[k + 1], ([i] + p)[k + 1]);
    }
    assert Same(b, xs[0], ([i] + p)[0]);
  }

  lemma NoSrcAtEnd(b: seq<byte>, out: seq<byte>, lo: nat, owed: map<nat, seq<nat>>, src: map<nat, nat>)
    requires Stream(b, out, lo, owed, src)
    ensures |out| !in src && |out| in owed && lo <= |out| && forall o :: o in owed ==> o <= |out|
  {
  }

  lemma SameSelf(b: seq<byte>, xs: seq<nat>)
    requires Fit(b) && forall k :: 0 <= k < |xs| ==> ItemAt(b, xs[k])
    ensures SameAll(b, xs, xs)
  {
    hide Resolve, Resolved, Fit, ItemAt;
    forall k | 0 <= k < |xs|
      ensures Same(b, xs[k], xs[k])
    {
      FitResolve(b, xs[k]);
    }
  }

  /** What is owed after a payment is what is pending. */
  lemma OwesItems(b: seq<byte>, i: nat, out: seq<byte>, u: Token, o: nat, src: map<nat, nat>, xs: seq<nat>, p: seq<nat>)
    requires Fit(b) && ItemAt(b, i) && Scan(b, i).Some? && Renders(b, i, out, u, o, src)
    requires SameAll(b, xs, [i] + p)
    ensures xs != [] && SameAll(b, Owes(b, i, u) + xs[1..], Owes(b, i, u) + p)
  {
    hide Scan, Renders, Resolve, Owes, Fit, Same, ItemAt;
    OwesWants(b, i, out, u, o, src);
    var ks := Owes(b, i, u);
    SameSelf(b, ks);
    SameHead(b, xs, i, p);
    forall k | 0 <= k < |ks + p|
      ensures Same(b, (ks + xs[1..])[k], (ks + p)[k])
    {
      if k < |ks| {
        assert Same(b, ks[k], ks[k]);
      } else {
        assert Same(b, xs[1..][k - |ks|], p[k - |ks|]);
      }
    }
  }

  /** A tag and the bytes behind it, copied with or without the track flag. */
  lemma RawScan(b: seq<byte>, i: nat, was: seq<byte>, out: seq<byte>, h: byte)
    requires Scan(b, i).Some? && h % HIGH == b[i] % HIGH
    requires out == was + [h] + b[i + 1..Scan(b, i).value.1]
    ensures |was| < |out| && out[..|was|] == was && out[|was|] == h
    ensures Scan(out, |was|) == Some((Scan(b, i).value.0, |out|))
  {
    hide Scan;
    assert out[|was| + 1..|out|] == b[i + 1..Scan(b, i).value.1];
    ScanShift(b, i, out, |was|);
  }

  /** A tag, flagged or not, with a number written behind it. */
  lemma NumberScan(was: seq<byte>, out: seq<byte>, h: byte, tag: byte, v: nat)
    requires v < WORD && TakesNumber(tag) && NumberToken(tag, v).Some? && h % HIGH == tag
    requires out == was + [h] + Write(v)
    ensures |was| < |out| && out[..|was|] == was && out[|was|] == h
    ensures Scan(out, |was|) == Some((NumberToken(tag, v).value, |out|))
  {
    hide NumberToken, Write, Scan;
    var plain := was + [tag] + Write(v);
    assert plain[|was|..] == [tag] + Write(v);
    ScanWritten(plain, |was|, tag, v);
    assert plain[|was| + 1..|out|] == out[|was| + 1..|out|];
    ScanShift(plain, |was|, out, |was|);
  }

  /** A tag without payload, flagged or not. */
  lemma BareScan(was: seq<byte>, out: seq<byte>, h: byte)
    requires out == was + [h] && (h % HIGH == REFN || h % HIGH == OBJECT || h % HIGH == OBJECT_FREEZE)
    ensures |was| < |out| && out[..|was|] == was && out[|was|] == h
    ensures Scan(out, |was|) == Some((Open(h % HIGH, 0), |out|))
  {
  }

  // ----- progress -----

  /** No item costs as much. */
  function Dear(b: seq<byte>): nat { Cost(b, 1, End(b)) + 1 }

  /** One step of the machine comes closer to its end, with `room` to spare: there is less work, or more only
      as far as one flagged tag fewer has to be found. */
  ghost predicate Less(b: seq<byte>, offsets: map<nat, nat>, pos: nat, s: seq<Status>,
                       offsets': map<nat, nat>, pos': nat, s': seq<Status>, room: nat) {
    var m, m' := Missing(b, offsets, pos, s), Missing(b, offsets', pos', s');
    && m' <= m
    && (m' == m ==> Work(b, pos', s') + room < Work(b, pos, s))
    && (m' != m ==> Work(b, pos', s') + room <= Work(b, pos, s) + Dear(b))
  }

  /** All that can still be written. */
  ghost function Energy(b: seq<byte>, offsets: map<nat, nat>, pos: nat, s: seq<Status>): nat {
    Work(b, pos, s) + |Missing(b, offsets, pos, s)| * Dear(b)
  }

  lemma LessEnergy(b: seq<byte>, offsets: map<nat, nat>, pos: nat, s: seq<Status>,
                   offsets': map<nat, nat>, pos': nat, s': seq<Status>, room: nat)
    requires Less(b, offsets, pos, s, offsets', pos', s', room)
    ensures Energy(b, offsets', pos', s') + room <= Energy(b, offsets, pos, s)
  {
    hide Missing, Work, Dear;
    var m, m', c := Missing(b, offsets, pos, s), Missing(b, offsets', pos', s'), Dear(b);
    if m' != m {
      Fewer(m', m);
      Times(|m'| + 1, |m|, c);
      assert (|m'| + 1) * c == |m'| * c + c;
    }
  }

  lemma LessShrinks(b: seq<byte>, offsets: map<nat, nat>, pos: nat, s: seq<Status>,
                    offsets': map<nat, nat>, pos': nat, s': seq<Status>)
    requires Less(b, offsets, pos, s, offsets', pos', s', 0)
    ensures var m, m' := Missing(b, offsets, pos, s), Missing(b, offsets', pos', s');
            m' < m || (m' == m && Work(b, pos', s') < Work(b, pos, s))
  {
    hide Missing, Work, Dear;
  }

  lemma Fewer(a: set<nat>, b: set<nat>)
    requires a <= b && a != b
    ensures |a| + 1 <= |b|
  {
    var x :| x in b && x !in a;
    Subset(a, b - {x});
  }

  lemma {:induction false} Subset(a: set<nat>, b: set<nat>)
    requires a <= b
    ensures |a| <= |b|
    decreases |a|
  {
    if a != {} {
      var x :| x in a;
      Subset(a - {x}, b - {x});
    }
  }

  lemma Times(m: nat, n: nat, c: nat)
    requires m <= n
    ensures m * c <= n * c
  {
  }

  /** The bytes of the input that may be flagged tags. */
  function HighBytes(b: seq<byte>): set<nat> {
    (set x: nat | 0 <= x < |b| && b[x] >= HIGH)
  }

  /** A chunk never needs more than this: its front, what the tags of the input may take, and as much again for
      each byte that may be a flagged tag, since each can be written again once for every chunk. */
  function MostBytes(b: seq<byte>): nat {
    8 + Cost(b, 1, End(b)) + |HighBytes(b)| * Dear(b)
  }

  /** At the start of a chunk, with n elements to come. */
  lemma Opening(b: seq<byte>, pos: nat, n: nat)
    requires OnPath(b, pos) && Pending(b, pos, Values(n)).Some?
    ensures 8 + Energy(b, map[], pos, Values(n)) <= MostBytes(b)
  {
    FlatWork(b, pos, n);
    hide Work, Pending, Cost, End, Path, Scan;
    CostSplit(b, 1, pos, End(b));
    var m := Missing(b, map[], pos, Values(n));
    hide Dear;
    Subset(m, HighBytes(b));
    Times(|m|, |HighBytes(b)|, Dear(b));
  }

  lemma {:induction false} FlatWork(b: seq<byte>, pos: nat, n: nat)
    requires Pending(b, pos, Values(n)).Some? && pos <= End(b)
    ensures Work(b, pos, Values(n)) <= Cost(b, pos, End(b))
    decreases n
  {
    if n > 0 {
      assert Below(Values(n)) == Values(n - 1);
      hide Cost, End, Parse;
      var e := Parse(b, pos, [Item]).value;
      FlatWork(b, e, n - 1);
      ParsePath(b, pos, [Item]);
      CostSplit(b, pos, e, End(b));
    }
  }

  // ----- the bound in terms of the size of the document -----

  lemma {:induction false} CostBound(b: seq<byte>, p: nat, e: nat)
    ensures Cost(b, p, e) <= (if p < |b| then |b| - p else 0) * (2 * |b| + 30)
    decreases |b| - p
  {
    hide Scan;
    if p < e && Scan(b, p).Some? {
      var (t, q) := Scan(b, p).value;
      CostBound(b, q, e);
      TagBound(b, p, t);
      hide TagCost;
      OneMore(|b| - q, |b| - p, 2 * |b| + 30);
    }
  }

  lemma OneMore(m: nat, n: nat, c: nat)
    requires m + 1 <= n
    ensures c + m * c <= n * c
  {
    Times(m + 1, n, c);
    assert (m + 1) * c == m * c + c;
  }

  lemma TagBound(b: seq<byte>, p: nat, t: Token)
    ensures TagCost(b, p, t) <= 2 * |b| + 30
  {
    SizeBound(b, p);
    SizeBound(b, if t.Copy? || t.ObjectV? then t.target else 0);
    hide TagSize;
  }

  lemma SizeBound(b: seq<byte>, p: nat)
    ensures TagSize(b, p) <= |b|
  {
    hide ScanShort, ScanText, ScanNumber, ScanFixed, BareToken;
  }

  lemma HighBound(b: seq<byte>)
    ensures |HighBytes(b)| <= |b|
  {
    Subset(HighBytes(b), Numbers(|b|));
  }

  function Numbers(n: nat): (s: set<nat>)
    ensures forall x: nat :: x in s <==> x < n
    ensures |s| == n
  {
    if n == 0 then {} else Numbers(n - 1) + {n - 1}
  }

  /** Documents of up to a megabyte never make the splitter give up. */
  lemma SmallEnough(b: seq<byte>)
    requires |b| <= 0x10_0000
    ensures MostBytes(b) < WORD
  {
    CostBound(b, 1, End(b));
    HighBound(b);
    hide Cost, HighBytes, End;
    var n := |b|;
    Times(if 1 < n then n - 1 else 0, 0x10_0000, 2 * n + 30);
    Times(2 * n + 30, 0x20_001e, 0x10_0000);
    var h := |HighBytes(b)|;
    assert Dear(b) <= 0x200_01e0_0001;
    Times(h, 0x10_0000, Dear(b));
    Times(Dear(b), 0x200_01e0_0001, 0x10_0000);
  }

  /** No item costs more than the whole document. */
  lemma ItemCost(b: seq<byte>, y: nat)
    requires ItemAt(b, y)
    ensures Parse(b, y, [Item]).Some? && Cost(b, y, Parse(b, y, [Item]).value) < Dear(b)
  {
    ItemParse(b, y);
    ItemOnPath(b, y);
    ParsePath(b, y, [Item]);
    hide Scan, Parse, Path, Cost, End, ItemAt;
    var e := Parse(b, y, [Item]).value;
    CostSplit(b, y, e, End(b));
    CostSplit(b, 1, y, End(b));
  }

  lemma ValueWork(b: seq<byte>, i: nat, s: seq<Status>)
    requires Scan(b, i).Some? && Parse(b, i, [Item]).Some?
    ensures var (t, q) := Scan(b, i).value;
            var e := Parse(b, i, [Item]).value;
            Work(b, i, s + [Value]) == TagCost(b, i, t) + Cost(b, q, e) + Work(b, e, s)
  {
    hide Scan;
    assert Below(s + [Value]) == s;
  }

  /** Going on behind the tag at i, which is in the table if it is flagged, brings nothing new to find. */
  lemma NothingNew(b: seq<byte>, offsets: map<nat, nat>, i: nat, s: seq<Status>, pos: nat, s': seq<Status>)
    requires i < |b| && (b[i] >= HIGH ==> i in offsets)
    requires s != [] && Top(s) == Value
    ensures Missing(b, offsets, pos, s') <= Missing(b, offsets, i, s)
  {
  }

  /** Going to a flagged tag that is not in the table, with more work only as far as it costs. */
  lemma SomethingFound(b: seq<byte>, offsets: map<nat, nat>, i: nat, s: seq<Status>, y: nat, s': seq<Status>, room: nat)
    requires i < |b| && (b[i] >= HIGH ==> i in offsets) && y < |b| && b[y] >= HIGH && y !in offsets && y != i
    requires s != [] && Top(s) == Value && s' != [] && Top(s') == Value
    requires Work(b, y, s') + room <= Work(b, i, s) + Dear(b)
    ensures Less(b, offsets, i, s, offsets, y, s', room)
  {
    hide Work, Dear;
    NothingNew(b, offsets, i, s, y, s');
    assert y in Missing(b, offsets, i, s) && y !in Missing(b, offsets, y, s');
  }

  /** The work when a link at i is followed to the item at y, to come back behind it. */
  lemma FollowWork(b: seq<byte>, i: nat, s: seq<Status>, y: nat)
    requires Scan(b, i).Some? && Parse(b, i, [Item]) == Some(Scan(b, i).value.1) && ItemAt(b, y)
    ensures var s' := s + [DeepnessUp, Jump(Scan(b, i).value.1), Value];
            Work(b, y, s') + Room(b, i) <= Work(b, i, s + [Value]) + Dear(b)
  {
    ItemCost(b, y);
    ValueWork(b, i, s);
    hide Scan, Parse, Work, Cost, ItemAt, Dear, Room, Pending, End;
    var q := Scan(b, i).value.1;
    var s1, s2 := s + [DeepnessUp], s + [DeepnessUp, Jump(q)];
    assert s2 == s1 + [Jump(q)] && s + [DeepnessUp, Jump(q), Value] == s2 + [Value];
    Pushed(b, q, s, DeepnessUp);
    Pushed(b, Parse(b, y, [Item]).value, s1, Jump(q));
    Pushed(b, y, s2, Value);
  }

  /** The stack behind a tag whose children follow it. */
  lemma OpenStep(b: seq<byte>, i: nat, s: seq<Status>, p: seq<nat>, rest: nat, deepness: int, offsets: map<nat, nat>)
    requires Fit(b) && ItemAt(b, i) && Scan(b, i).Some? && Scan(b, i).value.0.Open?
    requires Parse(b, i, [Item]).Some? && Pending(b, Parse(b, i, [Item]).value, s) == Some(p)
    requires Shape(s, rest, deepness) && Plain(s) && JumpsOnPath(b, s)
    requires b[i] >= HIGH ==> i in offsets
    ensures var (t, q) := Scan(b, i).value;
            var s' := s + [DeepnessUp] + Values(|Wants(t)|);
            && Pending(b, q, s') == Some(Owes(b, i, t) + p) && OnPath(b, q)
            && Shape(s', rest, deepness + 1) && Plain(s') && JumpsOnPath(b, s')
            && Less(b, offsets, i, s + [Value], offsets, q, s', Room(b, i))
  {
    hide Scan, Dear, Room, Path, Fit, Missing, Pending, Work, ItemAt, Parse, Owes, Cost, Shape, Plain, End, Chain;
    var (t, q) := Scan(b, i).value;
    Children(b, i);
    OpenPlace(b, i);
    OpenShape(s, rest, deepness, |Wants(t)|);
    var e, up := Parse(b, i, [Item]).value, s + [DeepnessUp];
    ItemParse(b, i);
    PendingUp(b, e, s);
    PendingValues(b, q, up, Wants(t));
    OwesOpen(b, i);
    ValueWork(b, i, s);
    WorkValues(b, q, up, Wants(t));
    NothingNew(b, offsets, i, s + [Value], q, up + Values(|Wants(t)|));
  }

  /** The stack behind a tag without children. */
  lemma LeafStep(b: seq<byte>, i: nat, s: seq<Status>, p: seq<nat>, offsets: map<nat, nat>)
    requires Fit(b) && ItemAt(b, i) && Scan(b, i).Some? && Wants(Scan(b, i).value.0) == []
    requires Parse(b, i, [Item]).Some? && Pending(b, Parse(b, i, [Item]).value, s) == Some(p)
    requires b[i] >= HIGH ==> i in offsets
    ensures var q := Scan(b, i).value.1;
            && Parse(b, i, [Item]) == Some(q) && Pending(b, q, s) == Some([] + p) && OnPath(b, q)
            && Less(b, offsets, i, s + [Value], offsets, q, s, Room(b, i))
  {
    OpenPlace(b, i);
    Children(b, i);
    ValueWork(b, i, s);
    hide Scan, Dear, Room, Fit, Missing, Pending, Work, ItemAt;
    NothingNew(b, offsets, i, s + [Value], Scan(b, i).value.1, s);
    assert [] + p == p;
  }

  /** A tag written as it is. */
  lemma SameRendering(b: seq<byte>, i: nat, out: seq<byte>, o: nat, src: map<nat, nat>)
    requires Scan(b, i).Some?
    requires var t := Scan(b, i).value.0; t.Leaf? || t.Num? || t.Text? || t.Open?
    ensures var t := Scan(b, i).value.0;
            Renders(b, i, out, t, o, src) && (!t.Open? ==> Owes(b, i, t) == [] && Wants(t) == [])
  {
  }

  lemma PendingUp(b: seq<byte>, pos: nat, s: seq<Status>)
    ensures Pending(b, pos, s + [DeepnessUp]) == Pending(b, pos, s)
    ensures Work(b, pos, s + [DeepnessUp]) == 1 + Work(b, pos, s)
  {
    assert Below(s + [DeepnessUp]) == s;
  }

  lemma OwesOpen(b: seq<byte>, i: nat)
    requires Scan(b, i).Some? && Scan(b, i).value.0.Open?
    requires Chain(b, Scan(b, i).value.1, Wants(Scan(b, i).value.0)).Some?
    ensures Owes(b, i, Scan(b, i).value.0) == Chain(b, Scan(b, i).value.1, Wants(Scan(b, i).value.0)).value
  {
  }

  lemma OpenPlace(b: seq<byte>, i: nat)
    requires Fit(b) && ItemAt(b, i) && Scan(b, i).Some?
    ensures OnPath(b, Scan(b, i).value.1)
  {
    ItemParse(b, i);
    Children(b, i);
    ParsePath(b, Scan(b, i).value.1, Wants(Scan(b, i).value.0));
    hide Scan;
    PathOrder(b, Scan(b, i).value.1, Parse(b, i, [Item]).value);
  }

  lemma OpenShape(s: seq<Status>, rest: nat, deepness: int, n: nat)
    requires Shape(s, rest, deepness) && Plain(s)
    ensures var s' := s + [DeepnessUp] + Values(n); Shape(s', rest, deepness + 1) && Plain(s')
  {
    assert Below(s + [DeepnessUp]) == s;
    UpsValues(s + [DeepnessUp], n);
  }

  lemma {:induction false} UpsValues(s: seq<Status>, n: nat)
    ensures Ups(s + Values(n)) == Ups(s)
    decreases n
  {
    if n == 0 {
      assert s + Values(0) == s;
    } else {
      assert Below(s + Values(n)) == s + Values(n - 1);
      UpsValues(s, n - 1);
    }
  }

  // ----- links -----

  /** Standing for the same tag, one item may take the place of the other as the next one pending. */
  lemma SameReplace(b: seq<byte>, xs: seq<nat>, i: nat, y: nat, p: seq<nat>)
    requires SameAll(b, xs, [i] + p) && Resolve(b, y) == Resolve(b, i) && (KeyLike(b, i) ==> KeyLike(b, y))
    ensures SameAll(b, xs, [y] + p)
  {
    hide Resolve, KeyLike;
    forall k | 0 <= k < |xs|
      ensures Same(b, xs[k], ([y] + p)[k])
    {
      assert Same(b, xs[k], ([i] + p)[k]);
    }
  }

  lemma Pushed(b: seq<byte>, pos: nat, s: seq<Status>, e: Status)
    ensures e == Value && Parse(b, pos, [Item]).Some? ==>
      var f := Parse(b, pos, [Item]).value;
      && Work(b, pos, s + [e]) == Cost(b, pos, f) + Work(b, f, s)
      && (Pending(b, f, s).Some? && f <= End(b) ==> Pending(b, pos, s + [e]) == Some([pos] + Pending(b, f, s).value))
    ensures e.Jump? ==> Pending(b, pos, s + [e]) == Pending(b, e.to, s) && Work(b, pos, s + [e]) == 1 + Work(b, e.to, s)
    ensures e != Value && !e.Jump? ==> Pending(b, pos, s + [e]) == Pending(b, pos, s) && Work(b, pos, s + [e]) == 1 + Work(b, pos, s)
  {
    assert Below(s + [e]) == s;
  }

  /** Pushing keeps the shape of the stack, if the element in hand is closed by what is pushed first. */
  lemma PushedShape(b: seq<byte>, s: seq<Status>, rest: nat, deepness: int, e: Status)
    requires Shape(s, rest, deepness) && Plain(s) && JumpsOnPath(b, s) && (rest < |s| || e == DeepnessUp)
    requires e == DeepnessUp || e == Value || (e.Jump? && OnPath(b, e.to))
    ensures Shape(s + [e], rest, deepness + (if e == DeepnessUp then 1 else 0)) && Plain(s + [e]) && JumpsOnPath(b, s + [e])
  {
    assert Below(s + [e]) == s;
  }

  /** The stack after a jump to y, to come back to q. */
  lemma JumpStep(b: seq<byte>, q: nat, s: seq<Status>, p: seq<nat>, y: nat, rest: nat, deepness: int)
    requires ItemAt(b, y) && OnPath(b, q) && Pending(b, q, s) == Some(p)
    requires Shape(s, rest, deepness) && Plain(s) && JumpsOnPath(b, s)
    ensures var s' := s + [DeepnessUp, Jump(q), Value];
            && Pending(b, y, s') == Some([y] + p) && OnPath(b, y) && s' != [] && Top(s') == Value
            && Shape(s', rest, deepness + 1) && Plain(s') && JumpsOnPath(b, s')
  {
    ItemParse(b, y);
    ItemOnPath(b, y);
    hide Parse, OnPath, Pending, Shape, Plain, JumpsOnPath, ItemAt;
    var s1, s2, f := s + [DeepnessUp], s + [DeepnessUp, Jump(q)], Parse(b, y, [Item]).value;
    assert s2 == s1 + [Jump(q)] && s + [DeepnessUp, Jump(q), Value] == s2 + [Value];
    ShapeTall(s, rest, deepness);
    PushedShape(b, s, rest, deepness, DeepnessUp);
    PushedShape(b, s1, rest, deepness + 1, Jump(q));
    PushedShape(b, s2, rest, deepness + 1, Value);
    Pushed(b, q, s, DeepnessUp);
    Pushed(b, f, s1, Jump(q));
    Pushed(b, y, s2, Value);
  }

  lemma ShapeTall(s: seq<Status>, rest: nat, deepness: int)
    requires Shape(s, rest, deepness)
    ensures rest <= |s|
  {
  }

  lemma ItemOnPath(b: seq<byte>, y: nat)
    requires ItemAt(b, y)
    ensures OnPath(b, y)
  {
  }

  /** Replacing a COPY by its string is less work than the COPY counts for. */
  lemma CopyWork(b: seq<byte>, i: nat, s: seq<Status>, offsets: map<nat, nat>, tracked: bool)
    requires Fit(b) && ItemAt(b, i) && Scan(b, i).Some? && Scan(b, i).value.0.Copy?
    requires b[i] >= HIGH ==> i in offsets
    ensures var s' := s + [DeepnessUp, Jump(Scan(b, i).value.1), Value] + (if tracked then [TrackNext, DontCheck] else []);
            Less(b, offsets, i, s + [Value], offsets, Scan(b, i).value.0.target, s', Room(b, i))
  {
    FitResolve(b, i);
    Children(b, i);
    ItemParse(b, i);
    ValueWork(b, i, s);
    var (t, q) := Scan(b, i).value;
    assert Parse(b, i, [Item]) == Some(q);
    assert Cost(b, q, q) == 0;
    hide Scan, Dear, Room, Fit, Missing, Resolve, ItemAt, Parse, Work, Cost, Resolved;
    var s3 := s + [DeepnessUp, Jump(q), Value];
    CopyStackWork(b, q, s, t.target, tracked);
    NothingNew(b, offsets, i, s + [Value], t.target, s3 + (if tracked then [TrackNext, DontCheck] else []));
  }

  lemma CopyStackWork(b: seq<byte>, q: nat, s: seq<Status>, y: nat, tracked: bool)
    requires TextAt(b, y)
    ensures var s' := s + [DeepnessUp, Jump(q), Value] + (if tracked then [TrackNext, DontCheck] else []);
            Work(b, y, s') <= Room(b, y) + 6 + Work(b, q, s)
  {
    hide Scan, Room, Parse, Work;
    var s1, s2, s3, e := s + [DeepnessUp], s + [DeepnessUp, Jump(q)], s + [DeepnessUp, Jump(q), Value], Scan(b, y).value.1;
    assert s2 == s1 + [Jump(q)] && s3 == s2 + [Value];
    Pushed(b, q, s, DeepnessUp);
    Pushed(b, e, s1, Jump(q));
    TextWork(b, y, s2);
    Pushed(b, y, s3, TrackNext);
    Pushed(b, y, s3 + [TrackNext], DontCheck);
    assert s3 + [TrackNext] + [DontCheck] == s3 + [TrackNext, DontCheck] && s3 + [] == s3;
  }

  lemma TextWork(b: seq<byte>, y: nat, s: seq<Status>)
    requires TextAt(b, y)
    ensures Work(b, y, s + [Value]) == Room(b, y) + 2 + Work(b, Scan(b, y).value.1, s)
  {
    ParseItem(b, y);
    assert Wants(Scan(b, y).value.0) == [];
    assert Below(s + [Value]) == s;
    assert Cost(b, Scan(b, y).value.1, Scan(b, y).value.1) == 0;
  }

  /** The stack after the object tag that replaces an OBJECTV: its class name is fetched from y, then its
      value follows at q. */
  lemma ObjectvStep(b: seq<byte>, i: nat, s: seq<Status>, p: seq<nat>, rest: nat, deepness: int, offsets: map<nat, nat>)
    requires Fit(b) && ItemAt(b, i) && Scan(b, i).Some? && Scan(b, i).value.0.ObjectV?
    requires Parse(b, i, [Item]).Some? && Pending(b, Parse(b, i, [Item]).value, s) == Some(p)
    requires Shape(s, rest, deepness) && Plain(s) && JumpsOnPath(b, s)
    requires b[i] >= HIGH ==> i in offsets
    ensures var (t, q) := Scan(b, i).value;
            var y, s' := t.target, s + [DeepnessUp, Value, Jump(q), Value];
            && ItemAt(b, y) && Pending(b, y, s') == Some([y, q] + p) && OnPath(b, y) && OnPath(b, q)
            && Shape(s', rest, deepness + 1) && Plain(s') && JumpsOnPath(b, s')
            && Less(b, offsets, i, s + [Value], offsets, y, s', Room(b, i))
  {
    FitResolve(b, i);
    OpenPlace(b, i);
    Children(b, i);
    ItemParse(b, i);
    ObjectValue(b, i);
    hide Scan, Dear, Room, Fit, Missing, Resolve, End, Path, Parse, Work, Cost, Pending, Resolved, OnPath, ItemAt, Shape, Plain, JumpsOnPath;
    var (t, q) := Scan(b, i).value;
    var y := t.target;
    ItemOnPath(b, y);
    ItemParse(b, y);
    ObjectvShape(b, q, s, rest, deepness);
    ObjectvPending(b, y, q, s, p);
    ObjectvWork(b, i, s);
    NothingNew(b, offsets, i, s + [Value], y, s + [DeepnessUp, Value, Jump(q), Value]);
  }

  lemma ObjectvShape(b: seq<byte>, q: nat, s: seq<Status>, rest: nat, deepness: int)
    requires Shape(s, rest, deepness) && Plain(s) && JumpsOnPath(b, s) && OnPath(b, q)
    ensures var s' := s + [DeepnessUp, Value, Jump(q), Value];
            Shape(s', rest, deepness + 1) && Plain(s') && JumpsOnPath(b, s')
  {
    hide Shape, Plain, JumpsOnPath, OnPath;
    var s1, s2, s3 := s + [DeepnessUp], s + [DeepnessUp, Value], s + [DeepnessUp, Value, Jump(q)];
    assert s2 == s1 + [Value] && s3 == s2 + [Jump(q)] && s + [DeepnessUp, Value, Jump(q), Value] == s3 + [Value];
    ShapeTall(s, rest, deepness);
    PushedShape(b, s, rest, deepness, DeepnessUp);
    PushedShape(b, s1, rest, deepness + 1, Value);
    PushedShape(b, s2, rest, deepness + 1, Jump(q));
    PushedShape(b, s3, rest, deepness + 1, Value);
  }

  lemma ObjectvPending(b: seq<byte>, y: nat, q: nat, s: seq<Status>, p: seq<nat>)
    requires Parse(b, y, [Item]).Some? && Parse(b, y, [Item]).value <= End(b)
    requires Parse(b, q, [Item]).Some? && Parse(b, q, [Item]).value <= End(b)
    requires Pending(b, Parse(b, q, [Item]).value, s) == Some(p)
    ensures Pending(b, y, s + [DeepnessUp, Value, Jump(q), Value]) == Some([y, q] + p)
  {
    hide Pending, Parse, End;
    var e, f := Parse(b, q, [Item]).value, Parse(b, y, [Item]).value;
    var s1, s2, s3 := s + [DeepnessUp], s + [DeepnessUp, Value], s + [DeepnessUp, Value, Jump(q)];
    assert s2 == s1 + [Value] && s3 == s2 + [Jump(q)] && s + [DeepnessUp, Value, Jump(q), Value] == s3 + [Value];
    assert [y] + ([q] + p) == [y, q] + p;
    hide *;
    Pushed(b, e, s, DeepnessUp);
    Pushed(b, q, s1, Value);
    Pushed(b, f, s2, Jump(q));
    Pushed(b, y, s3, Value);
  }

  lemma ObjectvWork(b: seq<byte>, i: nat, s: seq<Status>)
    requires Scan(b, i).Some? && Scan(b, i).value.0.ObjectV? && TextAt(b, Scan(b, i).value.0.target)
    requires Parse(b, i, [Item]).Some?
    ensures var (t, q) := Scan(b, i).value;
            Work(b, t.target, s + [DeepnessUp, Value, Jump(q), Value]) + Room(b, i) < Work(b, i, s + [Value])
  {
    ValueWork(b, i, s);
    ObjectValue(b, i);
    hide Scan, Dear, Room, Parse, Work, Cost;
    var (t, q) := Scan(b, i).value;
    var y, e := t.target, Parse(b, i, [Item]).value;
    var s1, s2, s3 := s + [DeepnessUp], s + [DeepnessUp, Value], s + [DeepnessUp, Value, Jump(q)];
    assert s2 == s1 + [Value] && s3 == s2 + [Jump(q)] && s + [DeepnessUp, Value, Jump(q), Value] == s3 + [Value];
    Pushed(b, e, s, DeepnessUp);
    Pushed(b, q, s1, Value);
    Pushed(b, Scan(b, y).value.1, s2, Jump(q));
    TextWork(b, y, s3);
  }

  /** The value of an OBJECTV ends where the OBJECTV does. */
  lemma ObjectValue(b: seq<byte>, i: nat)
    requires Scan(b, i).Some? && Scan(b, i).value.0.ObjectV?
    ensures Parse(b, Scan(b, i).value.1, [Item]) == Parse(b, i, [Item])
  {
    ParseItem(b, i);
  }

  /** Nothing in the table that a link may name leads to where the link itself is being written. */
  lemma NamedBefore(b: seq<byte>, out: seq<byte>, src: map<nat, nat>, offsets: map<nat, nat>, i: nat, tracked: bool, y: nat)
    requires Fit(b) && ItemAt(b, i) && Scan(b, i).Some? && (tracked ==> Scan(b, i).value.0.Refer?)
    requires OffsetsOk(b, out, src, offsets, if tracked then Some(i) else None) && y in offsets
    requires ItemAt(b, y) && y < i
    ensures Named(b, out, src, offsets[y], |out|, y)
  {
    FitResolve(b, i);
    ResolveBack(b, y);
  }

  lemma {:induction false} ResolveBack(b: seq<byte>, y: nat)
    requires Fit(b) && ItemAt(b, y)
    ensures Resolve(b, y).Some? && Resolve(b, y).value <= y
    decreases y
  {
    FitResolve(b, y);
    if Scan(b, y).value.0.Alias? {
      ResolveBack(b, Scan(b, y).value.0.target);
    }
  }

  // ----- reading a tag -----

  predicate IsScalar(tag: int) {
    0 <= tag <= LONG_DOUBLE || tag == TRUE || tag == FALSE || tag == UNDEF || tag == CANONICAL_UNDEF
  }

  lemma ScalarCase(b: seq<byte>, i: nat)
    requires Scan(b, i).Some? && IsScalar(b[i] % HIGH)
    ensures var (t, q) := Scan(b, i).value;
            && (t.Leaf? || t.Num?)
            && var tag := b[i] % HIGH;
            if tag == VARINT || tag == ZIGZAG then Read(b, i + 1).Some? && q == Read(b, i + 1).value.1
            else q == i + 1 + (if tag == FLOAT then 4 else if tag == DOUBLE then 8 else if tag == LONG_DOUBLE then 16 else 0)
  {
  }

  lemma OpenCase(b: seq<byte>, i: nat)
    requires Scan(b, i).Some?
    ensures var tag := b[i] % HIGH;
            var (t, q) := Scan(b, i).value;
            && (ARRAYREF <= tag < HASHREF ==> t == Open(ARRAYREF, tag - ARRAYREF) && q == i + 1)
            && (HASHREF <= tag < SHORT_BINARY ==> t == Open(HASHREF, tag - HASHREF) && q == i + 1)
            && (tag == REFN || tag == WEAKEN || tag == OBJECT || tag == OBJECT_FREEZE ==> t == Open(tag, 0) && q == i + 1)
            && (tag == ARRAY || tag == HASH ==> Read(b, i + 1).Some? && q == Read(b, i + 1).value.1 && t == Open(tag, Read(b, i + 1).value.0))
  {
  }

  lemma LinkCase(b: seq<byte>, i: nat)
    requires Scan(b, i).Some?
    ensures var tag := b[i] % HIGH;
            var (t, q) := Scan(b, i).value;
            tag == COPY || tag == REFP || tag == ALIAS || tag == OBJECTV || tag == OBJECTV_FREEZE ==>
              && Read(b, i + 1).Some? && q == Read(b, i + 1).value.1
              && var x := Read(b, i + 1).value.0;
              t == (if tag == COPY then Copy(x) else if tag == REFP then Refer(x) else if tag == ALIAS then Alias(x)
                    else if tag == OBJECTV then ObjectV(OBJECT, x) else ObjectV(OBJECT_FREEZE, x))
  {
  }

  /** A fit item begins with one of the tags the splitter knows. */
  lemma KnownCase(b: seq<byte>, i: nat)
    requires Fit(b) && ItemAt(b, i) && Scan(b, i).Some?
    ensures var tag := b[i] % HIGH;
            || IsScalar(tag) || tag >= ARRAYREF || BINARY <= tag <= WEAKEN || tag == OBJECT_FREEZE || tag == OBJECTV_FREEZE
  {
    FitResolve(b, i);
  }

  lemma WantsCount(t: Token)
    requires t.Open?
    ensures |Wants(t)| == (if t.tag == ARRAY || t.tag == ARRAYREF then t.count
                           else if t.tag == HASH || t.tag == HASHREF then 2 * t.count
                           else if t.tag == OBJECT || t.tag == OBJECT_FREEZE then 2 else 1)
  {
  }

  /** The stack that announces a held string. */
  lemma HeldStep(b: seq<byte>, s: seq<Status>, y: nat, xs: seq<nat>, rest: nat, deepness: int)
    requires s != [] && Top(s) == Value && Plain(s) && Shape(s, rest, deepness) && JumpsOnPath(b, s)
    requires rest < |s| && Pending(b, y, s) == Some(xs)
    ensures var s' := s + [TrackNext, DontCheck];
            && Held(s', false, false) && Shape(s', rest, deepness) && JumpsOnPath(b, s') && Pending(b, y, s') == Some(xs)
  {
    hide Parse;
    var s1 := s + [TrackNext];
    var s' := s + [TrackNext, DontCheck];
    assert s' == s1 + [DontCheck];
    assert Below(s1) == s && Below(s') == s1;
    assert Ups(s1) == Ups(s) && Ups(s') == Ups(s1);
    assert s'[..|s'| - 2] == s && s'[|s'| - 3..] == [Value, TrackNext, DontCheck];
  }

  lemma TextKey(b: seq<byte>, y: nat)
    requires TextAt(b, y)
    ensures KeyLike(b, y)
  {
  }

  lemma NotKey(b: seq<byte>, i: nat)
    requires Scan(b, i).Some? && Scan(b, i).value.0.Alias?
    ensures !KeyLike(b, i)
  {
  }

  // ----- taking an entry off the stack -----

  lemma {:induction false} UpsAt(s: seq<Status>, k: nat)
    requires k < |s| && s[k] == DeepnessUp
    ensures Ups(s) > 0
    decreases |s|
  {
    if k < |s| - 1 {
      UpsAt(Below(s), k);
    }
  }

  /** At deepness zero the stack holds nothing but the elements to come. */
  lemma FlatShape(s: seq<Status>, rest: nat)
    requires Shape(s, rest, 0)
    ensures |s| == rest && s == Values(rest)
  {
    if rest < |s| {
      UpsAt(s, rest);
    }
  }

  lemma ValuesBelow(n: nat)
    requires n > 0
    ensures Top(Values(n)) == Value && Below(Values(n)) == Values(n - 1)
  {
  }

  lemma {:induction false} FlatUps(n: nat)
    ensures Ups(Values(n)) == 0
  {
    if n > 0 {
      assert Below(Values(n)) == Values(n - 1);
      FlatUps(n - 1);
    }
  }

  /** The entry on top, and the shape of what is below it. */
  lemma Popped(s: seq<Status>, rest: nat, deepness: int, force: bool, dont: bool)
    requires s != [] && Shape(s, rest, deepness) && Mode(s, force, dont)
    ensures deepness >= 0
    ensures Top(s) == Value ==> Plain(Below(s)) && (Held(s, force, dont) <==> force) && (dont <==> force)
    ensures Top(s) == Value ==>
      if deepness == 0 then rest > 0 && Shape(Below(s), rest - 1, 0) else Shape(Below(s), rest, deepness)
    ensures Top(s) == DeepnessUp || Top(s).Jump? ==> Plain(Below(s)) && !Held(s, force, dont) && !force && !dont && deepness > 0
    ensures Top(s) == DeepnessUp ==> Shape(Below(s), rest, deepness - 1)
    ensures Top(s).Jump? ==> Shape(Below(s), rest, deepness)
    ensures Top(s) == TrackNext || Top(s) == DontCheck ==> Shape(Below(s), rest, deepness) && Held(s, force, dont) && deepness > 0
    ensures Top(s) == DontCheck ==> !force && !dont && Held(Below(s), false, true) && Mode(Below(s), false, true)
    ensures Top(s) == TrackNext ==> !force && dont && Held(Below(s), true, true) && Mode(Below(s), true, true)
  {
    PoppedShape(s, rest, deepness);
    PoppedMode(s, force, dont);
    hide Shape, Mode, Held, Plain, Below;
  }

  lemma PoppedShape(s: seq<Status>, rest: nat, deepness: int)
    requires s != [] && Shape(s, rest, deepness)
    ensures deepness >= 0 && (deepness == 0 ==> Top(s) == Value && rest > 0 && Shape(Below(s), rest - 1, 0))
    ensures deepness > 0 ==> Shape(Below(s), rest, if Top(s) == DeepnessUp then deepness - 1 else deepness)
  {
    if deepness == 0 {
      FlatShape(s, rest);
      ValuesBelow(rest);
      FlatUps(rest - 1);
    } else if rest == |s| {
      assert s == Values(rest);
      FlatUps(rest);
    }
  }

  lemma PoppedMode(s: seq<Status>, force: bool, dont: bool)
    requires s != [] && Mode(s, force, dont)
    ensures Top(s) == Value ==> Plain(Below(s)) && (Held(s, force, dont) <==> force) && (dont <==> force)
    ensures Top(s) == DeepnessUp || Top(s).Jump? ==> Plain(Below(s)) && !Held(s, force, dont) && !force && !dont
    ensures Top(s) == TrackNext || Top(s) == DontCheck ==> Held(s, force, dont)
    ensures Top(s) == DontCheck ==> !force && !dont && Held(Below(s), false, true) && Mode(Below(s), false, true)
    ensures Top(s) == TrackNext ==> !force && dont && Held(Below(s), true, true) && Mode(Below(s), true, true)
  {
    HeldTop(s, force, dont);
  }

  lemma HeldTop(s: seq<Status>, force: bool, dont: bool)
    requires s != []
    ensures Held(s, force, dont) ==> Top(s) == DontCheck || Top(s) == TrackNext || (Top(s) == Value && force && dont && Plain(s))
    ensures Held(s, force, dont) && Top(s) == DontCheck ==> !force && !dont && Held(Below(s), false, true)
    ensures Held(s, force, dont) && Top(s) == TrackNext ==> !force && dont && Held(Below(s), true, true)
  {
    if |s| >= 3 && s[|s| - 3..] == [Value, TrackNext, DontCheck] {
      var t := s[|s| - 3..];
      assert s[|s| - 1] == t[2] && s[|s| - 2] == t[1] && s[|s| - 3] == t[0];
      assert Below(s)[|s| - 3..] == [Value, TrackNext];
      assert Below(s)[..|s| - 2] == s[..|s| - 2];
    }
    if |s| >= 2 && s[|s| - 2..] == [Value, TrackNext] {
      var t := s[|s| - 2..];
      assert s[|s| - 1] == t[1] && s[|s| - 2] == t[0];
    }
  }

  /** No fewer items are pending than elements are to come. */
  lemma {:induction false} PendingRest(b: seq<byte>, pos: nat, s: seq<Status>, rest: nat)
    requires Pending(b, pos, s).Some? && rest <= |s| && forall k :: 0 <= k < rest ==> s[k] == Value
    ensures rest <= |Pending(b, pos, s).value|
    decreases |s|
  {
    hide Parse;
    if s != [] {
      var r := if rest == |s| then rest - 1 else rest;
      match Top(s)
      case Value => PendingRest(b, Parse(b, pos, [Item]).value, Below(s), r);
      case Jump(to) => PendingRest(b, to, Below(s), r);
      case _ => PendingRest(b, pos, Below(s), r);
    }
  }

  /** The item on top of what is pending. */
  lemma TopItem(b: seq<byte>, pos: nat, s: seq<Status>)
    requires s != [] && Top(s) == Value && Pending(b, pos, s).Some? && OnPath(b, pos)
    ensures ItemAt(b, pos) && Scan(b, pos).Some? && pos < |b|
    ensures Parse(b, pos, [Item]).Some? && Pending(b, Parse(b, pos, [Item]).value, Below(s)).Some?
    ensures Pending(b, pos, s).value == [pos] + Pending(b, Parse(b, pos, [Item]).value, Below(s)).value
  {
    hide Scan;
    assert ItemAt(b, pos);
    ItemParse(b, pos);
  }

  lemma EnterOffset(b: seq<byte>, out: seq<byte>, src: map<nat, nat>, offsets: map<nat, nat>, force: bool, i: nat, s: seq<Status>)
    requires OffsetsOk(b, out, src, offsets, if force then Some(i) else None) && s != [] && Top(s) == Value
    ensures OffsetsOk(b, out, src, offsets, Some(i))
    ensures var offsets' := if i in offsets then offsets else offsets[i := |out|];
            OffsetsOk(b, out, src, offsets', Some(i)) && Missing(b, offsets', i, s) == Missing(b, offsets, i, s)
  {
    hide Named, Resolve;
  }

  lemma JumpsBelow(b: seq<byte>, s: seq<Status>)
    requires s != [] && JumpsOnPath(b, s)
    ensures JumpsOnPath(b, Below(s)) && (Top(s).Jump? ==> OnPath(b, Top(s).to))
  {
    hide OnPath;
  }

  lemma ShapeValues(s: seq<Status>, rest: nat, deepness: int)
    requires Shape(s, rest, deepness)
    ensures rest <= |s| && forall k :: 0 <= k < rest ==> s[k] == Value
  {
  }

  /** Entries that are not values change nothing but the stack, or the place of the reader. */
  lemma PoppedPending(b: seq<byte>, pos: nat, s: seq<Status>)
    requires s != [] && Top(s) != Value
    ensures var to := if Top(s).Jump? then Top(s).to else pos;
            Pending(b, to, Below(s)) == Pending(b, pos, s) && Work(b, to, Below(s)) < Work(b, pos, s)
  {
  }

  /** Such a step brings nothing new to find, and less to do. */
  lemma PoppedLess(b: seq<byte>, pos: nat, s: seq<Status>, offsets: map<nat, nat>)
    requires s != [] && Top(s) != Value
    ensures Less(b, offsets, pos, s, offsets, if Top(s).Jump? then Top(s).to else pos, Below(s), 0)
    ensures Energy(b, offsets, if Top(s).Jump? then Top(s).to else pos, Below(s)) <= Energy(b, offsets, pos, s)
  {
    PoppedPending(b, pos, s);
    hide Missing, Work, Dear;
    var to := if Top(s).Jump? then Top(s).to else pos;
    PoppedFinds(b, pos, s, offsets, to);
    LessEnergy(b, offsets, pos, s, offsets, to, Below(s), 0);
  }

  lemma PoppedFinds(b: seq<byte>, pos: nat, s: seq<Status>, offsets: map<nat, nat>, to: nat)
    requires s != [] && Top(s) != Value
    ensures Missing(b, offsets, to, Below(s)) <= Missing(b, offsets, pos, s)
  {
  }

  lemma DeepEnough(s: seq<Status>, rest: nat, deepness: int)
    requires Shape(s, rest, deepness)
    ensures deepness >= 0 && (deepness == 0 ==> s == Values(rest)) && (s == [] ==> deepness == 0 && rest == 0)
  {
    if deepness == 0 {
      FlatShape(s, rest);
    }
  }

  /** What is pending at level zero are the elements to come. */
  lemma {:induction false} PendingFlat(b: seq<byte>, pos: nat, n: nat)
    requires Pending(b, pos, Values(n)).Some?
    ensures |Pending(b, pos, Values(n)).value| == n
    decreases n
  {
    hide Parse;
    if n > 0 {
      assert Below(Values(n)) == Values(n - 1);
      PendingFlat(b, Parse(b, pos, [Item]).value, n - 1);
    }
  }

  /** The stack between two chunks. */
  lemma FlatPlain(n: nat)
    ensures Plain(Values(n)) && Shape(Values(n), n, 0) && Mode(Values(n), false, false) && !Held(Values(n), false, false)
  {
    FlatUps(n);
    PlainNotHeld(Values(n));
  }

  /** A chunk in which nothing has been written yet. */
  lemma FreshStream(b: seq<byte>, out: seq<byte>, first: seq<nat>)
    ensures Stream(b, out, |out|, map[|out| := first], map[])
    ensures OffsetsOk(b, out, map[], map[], None) && StringsOk(out, map[], map[], false) && StringsOk(out, map[], map[], true)
  {
  }

  lemma FlatJumps(b: seq<byte>, n: nat)
    ensures JumpsOnPath(b, Values(n))
  {
  }
}
