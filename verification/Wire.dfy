/** The Sereal body: a stream of tags in prefix order, and what such a stream means.

    Offsets inside a body count from one, so a body is held in a buffer whose byte 0 is not part of
    it (the last header byte); then the tag at offset k is simply `b[k]`. */
module Wire {
  import opened Varint

  // ----- tags (the track flag masked off) -----

  const NEG_HIGH := 31
  const VARINT := 32
  const ZIGZAG := 33
  const FLOAT := 34
  const DOUBLE := 35
  const LONG_DOUBLE := 36
  const UNDEF := 37
  const BINARY := 38
  const STR_UTF8 := 39
  const REFN := 40
  const REFP := 41
  const HASH := 42
  const ARRAY := 43
  const OBJECT := 44
  const OBJECTV := 45
  const ALIAS := 46
  const COPY := 47
  const WEAKEN := 48
  const REGEXP := 49
  const OBJECT_FREEZE := 50
  const OBJECTV_FREEZE := 51
  const CANONICAL_UNDEF := 57
  const FALSE := 58
  const TRUE := 59
  const EXTEND := 62
  const PAD := 63
  const ARRAYREF := 64
  const HASHREF := 80
  const SHORT_BINARY := 96

  /** Counts above the largest signed 32-bit integer are refused. */
  const MAX_COUNT := 0x7fff_ffff

  // ----- one tag with its own payload -----

  datatype Token =
    | Leaf(tag: int, data: seq<byte>)          // small integers, floats, constants
    | Num(tag: int, value: nat)                // VARINT and ZIGZAG
    | Text(utf8: bool, content: seq<byte>)
    | Open(tag: int, count: nat)               // a tag that further items belong to
    | Refer(target: nat)                       // REFP
    | Alias(target: nat)
    | Copy(target: nat)
    | ObjectV(tag: int, target: nat)           // an object whose class name stands at the target
    | Pad
    | Other(tag: int)                          // REGEXP and EXTEND

  /** What may stand at a place: any item, or only a string. */
  datatype Want = Item | Key

  function Items(n: nat): (w: seq<Want>)
    ensures |w| == n && forall i :: 0 <= i < n ==> w[i] == Item
  {
    seq(n, _ => Item)
  }

  function Pairs(n: nat): (w: seq<Want>)
    ensures |w| == 2 * n
  {
    seq(2 * n, i => if i % 2 == 0 then Key else Item)
  }

  lemma ItemsCut(n: nat, k: nat)
    requires k < n
    ensures Items(n) == Items(k) + Items(n - k) && Items(n - k)[0] == Item
  {
  }

  lemma PairsCut(n: nat, k: nat)
    requires k < n
    ensures Pairs(n) == Pairs(k) + [Key] + ([Item] + Pairs(n - k - 1))
  {
  }

  /** The places a token opens behind itself, in order. */
  function Wants(t: Token): (w: seq<Want>) {
    match t
    case Open(tag, n) =>
      if tag == ARRAY || tag == ARRAYREF then Items(n)
      else if tag == HASH || tag == HASHREF then Pairs(n)
      else if tag == OBJECT || tag == OBJECT_FREEZE then [Key, Item]
      else [Item]
    case ObjectV(_, _) => [Item]
    case Pad => [Item]
    case _ => []
  }

  predicate Stringish(t: Token) { t.Text? || t.Copy? }

  function Slice(b: seq<byte>, p: nat, n: nat): (r: Option<seq<byte>>) {
    if p + n <= |b| then Some(b[p..p + n]) else None
  }

  function ScanFixed(b: seq<byte>, p: nat, tag: int, n: nat): (r: Option<(Token, nat)>)
    ensures r.Some? ==> r.value.1 == p + 1 + n <= |b|
  {
    match Slice(b, p + 1, n)
    case None => None
    case Some(s) => Some((Leaf(tag, s), p + 1 + n))
  }

  function ScanText(b: seq<byte>, p: nat, utf8: bool): (r: Option<(Token, nat)>)
    ensures r.Some? ==> p + 1 < r.value.1 <= |b|
  {
    match Read(b, p + 1)
    case None => None
    case Some((n, q)) => if q + n <= |b| then Some((Text(utf8, b[q..q + n]), q + n)) else None
  }

  function ScanShort(b: seq<byte>, p: nat, n: nat): (r: Option<(Token, nat)>)
    ensures r.Some? ==> r.value.1 == p + 1 + n <= |b|
  {
    if p + 1 + n <= |b| then Some((Text(false, b[p + 1..p + 1 + n]), p + 1 + n)) else None
  }

  /** The token that a tag followed by one varint denotes. */
  function NumberToken(tag: int, v: nat): (r: Option<Token>) {
    if tag == VARINT || tag == ZIGZAG then Some(Num(tag, v))
    else if tag == ARRAY || tag == HASH then if v <= MAX_COUNT then Some(Open(tag, v)) else None
    else if tag == REFP then Some(Refer(v))
    else if tag == ALIAS then Some(Alias(v))
    else if tag == COPY then Some(Copy(v))
    else if tag == OBJECTV then Some(ObjectV(OBJECT, v))
    else if tag == OBJECTV_FREEZE then Some(ObjectV(OBJECT_FREEZE, v))
    else None
  }

  predicate TakesNumber(tag: int) {
    || tag == VARINT || tag == ZIGZAG || tag == ARRAY || tag == HASH || tag == REFP || tag == ALIAS
    || tag == COPY || tag == OBJECTV || tag == OBJECTV_FREEZE
  }

  function ScanNumber(b: seq<byte>, p: nat, tag: int): (r: Option<(Token, nat)>)
    ensures r.Some? ==> p + 1 < r.value.1 <= |b|
  {
    match Read(b, p + 1)
    case None => None
    case Some((v, q)) =>
      match NumberToken(tag, v)
      case None => None
      case Some(t) => Some((t, q))
  }

  /** The tags that stand alone, without payload. */
  function BareToken(tag: int): (r: Option<Token>) {
    if 0 <= tag <= NEG_HIGH || tag == UNDEF || tag == CANONICAL_UNDEF || tag == TRUE || tag == FALSE
    then Some(Leaf(tag, []))
    else if tag == REFN || tag == WEAKEN || tag == OBJECT || tag == OBJECT_FREEZE then Some(Open(tag, 0))
    else if ARRAYREF <= tag < HASHREF then Some(Open(ARRAYREF, tag - ARRAYREF))
    else if HASHREF <= tag < SHORT_BINARY then Some(Open(HASHREF, tag - HASHREF))
    else if tag == PAD then Some(Pad)
    else if tag == REGEXP || tag == EXTEND then Some(Other(tag))
    else None
  }

  /** The token at p, and the position after it.  Purely local: link targets are not looked at. */
  function Scan(b: seq<byte>, p: nat): (r: Option<(Token, nat)>)
    ensures r.Some? ==> p < r.value.1 <= |b|
  {
    if p >= |b| then None
    else
      var tag := b[p] % HIGH;
      if tag >= SHORT_BINARY then ScanShort(b, p, tag - SHORT_BINARY)
      else if tag == BINARY || tag == STR_UTF8 then ScanText(b, p, tag == STR_UTF8)
      else if tag == FLOAT then ScanFixed(b, p, tag, 4)
      else if tag == DOUBLE then ScanFixed(b, p, tag, 8)
      else if tag == LONG_DOUBLE then ScanFixed(b, p, tag, 16)
      else if TakesNumber(tag) then ScanNumber(b, p, tag)
      else match BareToken(tag)
        case None => None
        case Some(t) => Some((t, p + 1))
  }

  predicate TextAt(b: seq<byte>, p: nat) {
    Scan(b, p).Some? && Scan(b, p).value.0.Text?
  }

  /** A string, by its tag. */
  lemma TextCase(b: seq<byte>, i: nat)
    requires Scan(b, i).Some?
    ensures i < |b|
    ensures var tag := b[i] % HIGH;
            var (t, q) := Scan(b, i).value;
            && (tag >= SHORT_BINARY ==> q == i + 1 + (tag - SHORT_BINARY) <= |b| && t == Text(false, b[i + 1..q]))
            && (tag == BINARY || tag == STR_UTF8 ==>
                Read(b, i + 1).Some?
                && var (n, r) := Read(b, i + 1).value; q == r + n <= |b| && t == Text(tag == STR_UTF8, b[r..q]))
            && (t.Text? ==> Wants(t) == [])
  {
  }

  predicate PadAt(b: seq<byte>, p: nat) {
    p < |b| && b[p] % HIGH == PAD
  }

  lemma ScanPad(b: seq<byte>, p: nat)
    ensures PadAt(b, p) <==> Scan(b, p) == Some((Pad, p + 1))
    ensures Scan(b, p).Some? && Scan(b, p).value.0.Pad? ==> PadAt(b, p)
  {
  }

  lemma ScanTextShift(b: seq<byte>, p: nat, c: seq<byte>, q: nat, utf8: bool)
    requires ScanText(b, p, utf8).Some?
    requires SameBytes(b, p + 1, c, q + 1, ScanText(b, p, utf8).value.1 - (p + 1))
    ensures ScanText(c, q, utf8) == Some((ScanText(b, p, utf8).value.0, q + (ScanText(b, p, utf8).value.1 - p)))
  {
    var n := ScanText(b, p, utf8).value.1 - (p + 1);
    var k := Read(b, p + 1).value.1 - (p + 1);
    SamePart(b, p + 1, c, q + 1, n, 0, k);
    ReadShift(b, p + 1, c, q + 1);
    SamePart(b, p + 1, c, q + 1, n, k, n - k);
  }

  lemma ScanNumberShift(b: seq<byte>, p: nat, c: seq<byte>, q: nat, tag: int)
    requires ScanNumber(b, p, tag).Some?
    requires SameBytes(b, p + 1, c, q + 1, ScanNumber(b, p, tag).value.1 - (p + 1))
    ensures ScanNumber(c, q, tag) == Some((ScanNumber(b, p, tag).value.0, q + (ScanNumber(b, p, tag).value.1 - p)))
  {
    ReadShift(b, p + 1, c, q + 1);
  }

  /** Scanning looks only at the token's own bytes, and not at the track flag: the same bytes anywhere
      else are the same token. */
  lemma ScanShift(b: seq<byte>, p: nat, c: seq<byte>, q: nat)
    requires Scan(b, p).Some?
    requires q < |c| && c[q] % HIGH == b[p] % HIGH
    requires SameBytes(b, p + 1, c, q + 1, Scan(b, p).value.1 - (p + 1))
    ensures Scan(c, q) == Some((Scan(b, p).value.0, q + (Scan(b, p).value.1 - p)))
  {
    hide ScanText, ScanNumber, BareToken;
    var tag := b[p] % HIGH;
    if tag == BINARY || tag == STR_UTF8 {
      ScanTextShift(b, p, c, q, tag == STR_UTF8);
    } else if TakesNumber(tag) {
      ScanNumberShift(b, p, c, q, tag);
    }
  }

  /** A tag written with a varint behind it scans as that tag and that number. */
  lemma ScanWritten(b: seq<byte>, p: nat, tag: byte, v: nat)
    requires v < WORD && TakesNumber(tag) && NumberToken(tag, v).Some?
    requires p <= |b| && b[p..] == [tag] + Write(v)
    ensures |Write(v)| <= MAX_BYTES
    ensures Scan(b, p) == Some((NumberToken(tag, v).value, |b|))
  {
    assert b[p] == b[p..][0] == tag;
    assert b[p + 1..p + 1 + |Write(v)|] == b[p..][1..] == Write(v);
    ReadWrite(b, p + 1, v);
  }

  // ----- the grammar: prefix order over a list of places still to fill -----

  /** Reads items at p until the places `todo` are filled; where that ends. */
  function Parse(b: seq<byte>, p: nat, todo: seq<Want>): (r: Option<nat>)
    ensures r.Some? ==> p <= r.value
    ensures r.Some? && todo != [] ==> p < r.value <= |b|
    decreases |b| - p
  {
    if todo == [] then Some(p)
    else match Scan(b, p)
      case None => None
      case Some((t, q)) =>
        if t.Other? || (todo[0] == Key && !Stringish(t)) then None
        else Parse(b, q, Wants(t) + todo[1..])
  }

  lemma {:induction false} ParseSplit(b: seq<byte>, p: nat, xs: seq<Want>, ys: seq<Want>)
    ensures Parse(b, p, xs + ys) ==
            (match Parse(b, p, xs) case None => None case Some(e) => Parse(b, e, ys))
    decreases |b| - p
  {
    if xs == [] {
      assert xs + ys == ys;
    } else if Scan(b, p).Some? {
      var (t, q) := Scan(b, p).value;
      assert (xs + ys)[1..] == xs[1..] + ys;
      assert Wants(t) + (xs[1..] + ys) == (Wants(t) + xs[1..]) + ys;
      ParseSplit(b, q, Wants(t) + xs[1..], ys);
    }
  }

  lemma ParseItem(b: seq<byte>, p: nat)
    ensures Parse(b, p, [Item]) ==
            (match Scan(b, p) case None => None
             case Some((t, q)) => if t.Other? then None else Parse(b, q, Wants(t)))
  {
    hide Scan;
    if Scan(b, p).Some? {
      assert Wants(Scan(b, p).value.0) + [Item][1..] == Wants(Scan(b, p).value.0);
    }
  }

  /** A tag without children, and what follows it. */
  lemma Rest(b: seq<byte>, p: nat, q: nat, n: nat)
    requires Scan(b, p).Some? && Scan(b, p).value.1 == q && Wants(Scan(b, p).value.0) == [] && !Scan(b, p).value.0.Other?
    ensures Parse(b, p, Items(n + 1)) == Parse(b, q, Items(n))
  {
    hide Scan;
    assert Items(n + 1)[1..] == Items(n);
    assert [] + Items(n) == Items(n);
  }

  /** One of many: the k-th place filled, and those after it. */
  lemma ParseNth(b: seq<byte>, p: nat, done: seq<Want>, w: seq<Want>, rest: seq<Want>)
    ensures Parse(b, p, done + w) ==
            (match Parse(b, p, done) case None => None case Some(e) => Parse(b, e, w))
    ensures Parse(b, p, done + w + rest).Some? ==> Parse(b, p, done + w).Some?
  {
    ParseSplit(b, p, done, w);
    ParseSplit(b, p, done + w, rest);
  }

  /** A tag that only prefixes the item behind it. */
  predicate Prefixes(t: Token) {
    t.Pad? || (t.Open? && (t.tag == REFN || t.tag == WEAKEN))
  }

  /** The places to fill behind a tag that fills the first of them. */
  function Behind(t: Token, todo: seq<Want>): (r: seq<Want>)
    requires todo != []
    ensures |r| == |Wants(t)| + |todo| - 1
    ensures todo[0] == Item ==> r == Wants(t) + todo[1..]
  {
    if Prefixes(t) then todo else Wants(t) + todo[1..]
  }

  /** Reads on without asking whether keys are strings, until the places are filled or the buffer ends:
      where, and the places still to fill. */
  function Walk(b: seq<byte>, p: nat, todo: seq<Want>): (r: Option<(nat, seq<Want>)>)
    ensures r.Some? ==> p <= r.value.0 && (r.value.1 == [] || r.value.0 >= |b|)
    decreases |b| - p
  {
    if todo == [] || p >= |b| then Some((p, todo))
    else match Scan(b, p)
      case None => None
      case Some((t, q)) => if t.Other? then None else Walk(b, q, Behind(t, todo))
  }

  lemma StringishWants(t: Token)
    requires Stringish(t)
    ensures Wants(t) == [] && !Prefixes(t)
  {
  }

  lemma {:induction false} ParseWalk(b: seq<byte>, p: nat, todo: seq<Want>)
    ensures Parse(b, p, todo).Some? ==> Walk(b, p, todo) == Some((Parse(b, p, todo).value, []))
    decreases |b| - p
  {
    if todo != [] && Scan(b, p).Some? {
      var (t, q) := Scan(b, p).value;
      if Stringish(t) {
        StringishWants(t);
      }
      ParseWalk(b, q, Wants(t) + todo[1..]);
    }
  }

  /** Where each of the items that fill `wants` from p on begins. */
  function Chain(b: seq<byte>, p: nat, wants: seq<Want>): (r: Option<seq<nat>>)
    ensures r.Some? ==> |r.value| == |wants|
    decreases |wants|
  {
    if wants == [] then Some([])
    else match Parse(b, p, [wants[0]])
      case None => None
      case Some(e) =>
        match Chain(b, e, wants[1..])
        case None => None
        case Some(ks) => Some([p] + ks)
  }

  /** The chain of one item and those behind it. */
  lemma ChainStep(b: seq<byte>, p: nat, e: nat, w: Want, ws: seq<Want>)
    requires Parse(b, p, [w]) == Some(e)
    ensures Parse(b, p, [w] + ws) == Parse(b, e, ws)
    ensures Chain(b, p, [w] + ws) ==
            (match Chain(b, e, ws) case None => None case Some(ks) => Some([p] + ks))
  {
    ParseSplit(b, p, [w], ws);
    hide Scan, Parse;
    assert ([w] + ws)[0] == w && ([w] + ws)[1..] == ws;
  }

  predicate IsObject(t: Token) {
    t == Open(OBJECT, 0) || t == Open(OBJECT_FREEZE, 0)
  }

  /** The two children of an object whose class name is spelled out at q and ends at e. */
  lemma ChainObject(b: seq<byte>, q: nat, e: nat)
    requires TextAt(b, q) && Scan(b, q).value.1 == e
    requires Parse(b, e, [Item]).Some?
    ensures Parse(b, q, [Key, Item]) == Parse(b, e, [Item])
    ensures Chain(b, q, [Key, Item]) == Some([q, e])
  {
    hide Scan;
    var c := Scan(b, q).value.0;
    assert Wants(c) + [Key, Item][1..] == [Item];
    assert Wants(c) + [Key][1..] == [];
    assert Parse(b, q, [Key]) == Parse(b, e, []);
    assert [Key, Item][1..] == [Item] && [Item][1..] == [];
    assert Chain(b, e + 0, []) == Some([]);
    assert Chain(b, e, [Item]) == Some([e] + []);
    assert [e] + [] == [e] && [q] + [e] == [q, e];
  }

  // ----- meaning -----

  /** The tag an item at p stands for: padding skipped, ALIAS and COPY followed.
      A COPY may only point at a string. */
  function Resolve(b: seq<byte>, p: nat): (r: Option<nat>)
    decreases if PadAt(b, p) then 1 else 0, if PadAt(b, p) then |b| - p else p
  {
    match Scan(b, p)
    case None => None
    case Some((Pad, q)) => Resolve(b, p + 1)
    case Some((Alias(t), q)) => if 0 < t < p && !PadAt(b, t) then Resolve(b, t) else None
    case Some((Copy(t), q)) => if 0 < t < p && TextAt(b, t) then Some(t) else None
    case Some((_, q)) => Some(p)
  }

  /** A tag that stands for itself. */
  predicate Settled(b: seq<byte>, p: nat) {
    && Scan(b, p).Some?
    && var t := Scan(b, p).value.0;
    !t.Pad? && !t.Alias? && !t.Copy?
  }

  lemma {:induction false} ResolveFixed(b: seq<byte>, p: nat)
    requires Resolve(b, p).Some?
    ensures Settled(b, Resolve(b, p).value)
    decreases if PadAt(b, p) then 1 else 0, if PadAt(b, p) then |b| - p else p
  {
    match Scan(b, p)
    case Some((Pad, q)) => ResolveFixed(b, p + 1);
    case Some((Alias(t), q)) => ResolveFixed(b, t);
    case _ =>
  }

  datatype Node = Node(shape: Token, kids: seq<nat>)

  /** The label and the children of the tag at p.  A reference to an earlier item and a reference to
      the next item are the same node; so are an object with its class name spelled out and one whose
      class name is pointed at. */
  function Head(b: seq<byte>, p: nat): (r: Option<Node>) {
    match Scan(b, p)
    case None => None
    case Some((t, q)) =>
      match t
      case Leaf(_, _) => Some(Node(t, []))
      case Num(_, _) => Some(Node(t, []))
      case Text(_, _) => Some(Node(t, []))
      case Open(_, _) =>
        (match Chain(b, q, Wants(t))
         case None => None
         case Some(ks) => Some(Node(t, ks)))
      case Refer(x) => if 0 < x < p && !PadAt(b, x) then Some(Node(Open(REFN, 0), [x])) else None
      case ObjectV(tag, x) =>
        if 0 < x < p && TextAt(b, x) then Some(Node(Open(tag, 0), [x, q])) else None
      case _ => None
  }

  datatype Tree = Cut | Bad | Tree(shape: Token, kids: seq<Tree>)

  /** The tree an item denotes when every reference is followed, cut off at depth d.  Two items mean
      the same when their trees agree at every depth; cycles are no obstacle. */
  function Meaning(b: seq<byte>, p: nat, d: nat): (t: Tree)
    decreases d
  {
    if d == 0 then Cut
    else match Resolve(b, p)
      case None => Bad
      case Some(r) =>
        match Head(b, r)
        case None => Bad
        case Some(n) => Tree(n.shape, seq(|n.kids|, i requires 0 <= i < |n.kids| => Meaning(b, n.kids[i], d - 1)))
  }

  lemma MeaningCut(b: seq<byte>, p: nat)
    ensures Meaning(b, p, 0) == Cut
  {
  }

  lemma MeaningStep(b: seq<byte>, p: nat, d: nat)
    requires d > 0 && Resolve(b, p).Some? && Head(b, Resolve(b, p).value).Some?
    ensures var n := Head(b, Resolve(b, p).value).value;
            && Meaning(b, p, d).Tree? && Meaning(b, p, d).shape == n.shape
            && |Meaning(b, p, d).kids| == |n.kids|
            && forall j :: 0 <= j < |n.kids| ==> Meaning(b, p, d).kids[j] == Meaning(b, n.kids[j], d - 1)
  {
  }

  /** Nothing malformed is reachable within the depth of the tree. */
  ghost predicate Clean(t: Tree)
    decreases t
  {
    match t
    case Cut => true
    case Bad => false
    case Tree(_, ks) => forall i :: 0 <= i < |ks| ==> Clean(ks[i])
  }

  /** Several trees, as the elements of one referenced array. */
  function ArrayOf(trees: seq<Tree>): Tree {
    Tree(Open(REFN, 0), [Tree(Open(ARRAY, |trees|), trees)])
  }
}
