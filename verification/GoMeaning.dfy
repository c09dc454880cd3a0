/** What the Go decoder makes of a body, against the reference: an item decodes exactly to the value its tree
    denotes.  Tags are given by their numbers. */
module GoMeaning {
  import opened Varint
  import opened VarintIO
  import opened Wire
  import opened Mapping
  import opened Faults
  import opened MergerState
  import opened Tags
  import opened GoSpec

  // ----- values and trees -----

  /** What bytes are worth, the least significant first. */
  function Little(s: seq<byte>): nat {
    if s == [] then 0 else s[0] + 256 * Little(s[1..])
  }

  /** The value is the one the tree denotes.  References and weak references do not show; numbers written in
      zigzag are all taken to be negative. */
  ghost predicate Denotes(v: Value, t: Tree)
    decreases t
  {
    match t
    case Tree(Leaf(tag, data), _) =>
      || (0 <= tag <= 15 && v == Int(tag)) || (16 <= tag <= 31 && v == Int(tag - 32))
      || (tag == 34 && v == Float(Little(data))) || (tag == 35 && v == Double(Little(data)))
      || ((tag == 37 || tag == 57) && v == Nil) || (tag == 58 && v == Bool(false)) || (tag == 59 && v == Bool(true))
    case Tree(Num(tag, u), _) =>
      || (tag == 32 && u <= 0x7fff_ffff_ffff_ffff && v == Int(u))
      || (tag == 32 && 0x7fff_ffff_ffff_ffff < u < 0x1_0000_0000_0000_0000 && v == Uint(u))
      || (tag == 33 && u < 0x1_0000_0000_0000_0000 && v == Int(-(1 + u / 2)))
    case Tree(Text(utf8, s), _) => v == if utf8 then Str(s) else Bytes(s)
    case Tree(Open(tag, n), kids) =>
      if tag == 40 || tag == 48 then |kids| == 1 && Denotes(v, kids[0])
      else if tag == 43 || tag == 64 then
        v.Array? && |v.items| == |kids| == n && forall k :: 0 <= k < n ==> Denotes(v.items[k], kids[k])
      else (
        && (tag == 42 || tag == 80) && v.Dict? && |kids| == 2 * n && KeysOf(v.entries.Keys, kids, n)
        && forall i :: 0 <= i < n && LastOf(kids, n, i) ==>
             KeyAt(kids, i) in v.entries && Denotes(v.entries[KeyAt(kids, i)], kids[2 * i + 1]))
    case _ => false
  }

  /** The keys are strings, and these. */
  ghost predicate KeysOf(keys: set<seq<byte>>, kids: seq<Tree>, n: nat)
    requires |kids| == 2 * n
  {
    && (forall i :: 0 <= i < n ==> IsText(kids[2 * i]) && KeyAt(kids, i) in keys)
    && (forall s :: s in keys ==> exists i :: 0 <= i < n && KeyAt(kids, i) == s)
  }

  predicate IsText(t: Tree) { t.Tree? && t.shape.Text? }

  /** The key of the i-th pair. */
  function KeyAt(kids: seq<Tree>, i: nat): seq<byte>
    requires 2 * i < |kids|
  {
    if IsText(kids[2 * i]) then kids[2 * i].shape.content else []
  }

  /** It does not come again: of equal keys the last counts. */
  predicate LastOf(kids: seq<Tree>, n: nat, i: nat)
    requires |kids| == 2 * n && i < n
  {
    forall j :: i < j < n ==> KeyAt(kids, j) != KeyAt(kids, i)
  }

  // ----- what can be decoded -----

  /** The tag at p is neither LONG_DOUBLE, REFP, ALIAS, OBJECT, OBJECTV, their FREEZE forms, REGEXP nor EXTEND;
      a string is not too long; and a COPY leads back to such a string. */
  ghost predicate Decodable(b: seq<byte>, p: nat) {
    p < |b| && Scan(b, p).Some? ==>
      && b[p] % 128 !in {36, 41, 44, 45, 46, 49, 50, 51, 62} && Short(b, p)
      && (b[p] % 128 == 47 ==> var x := Read(b, p + 1).value.0; 0 < x < p && TextAt(b, x) && Short(b, x))
  }

  ghost predicate Short(b: seq<byte>, p: nat) {
    TextAt(b, p) ==> |Scan(b, p).value.0.content| <= 2147483647
  }

  ghost predicate AllDecodable(b: seq<byte>, p: nat, e: nat) {
    forall q: nat :: Path(b, p, q) && q < e ==> Decodable(b, q)
  }

  lemma DecodableFrom(b: seq<byte>, p: nat, e: nat, r: nat, e': nat)
    requires AllDecodable(b, p, e) && Path(b, p, r) && e' <= e
    ensures AllDecodable(b, r, e')
  {
    hide Scan, Path, Decodable;
    forall q: nat | Path(b, r, q) && q < e'
      ensures Decodable(b, q)
    {
      PathTrans(b, p, r, q);
    }
  }

  // ----- single tags -----

  /** Reading an item begins with its tag, unless it is padding. */
  lemma TagFirst(b: seq<byte>, p: nat, tag: nat, c: nat)
    requires c <= 1 && p < |b| && tag == b[p] % 128 && tag != 63
    ensures ValueAt(b, p, c) == ValueOf(b, tag, p + 1, c) && StringAt(b, p, c) == StringOf(b, tag, p + 1, c)
  {
    hide ValueOf, StringOf;
    assert Skip(b, p) == p;
  }

  /** A string decodes to itself, as a value and as a key. */
  lemma DecodesText(b: seq<byte>, p: nat, c: nat)
    requires c <= 1 && TextAt(b, p) && Short(b, p)
    ensures var (t, q) := Scan(b, p).value;
            && ValueAt(b, p, c) == Good(if t.utf8 then Str(t.content) else Bytes(t.content), q)
            && StringAt(b, p, c) == Good(t.content, q)
  {
    TextCase(b, p);
    StringCase(b, p);
    hide Scan, Read, ValueAt, StringAt, ArrayAt, HashAt, CopyOffset;
    TagFirst(b, p, b[p] % 128, c);
  }

  lemma {:induction false} LittleIs(b: seq<byte>, p: nat, n: nat)
    requires p + n <= |b|
    ensures FromBytes(b, p, n) == Little(b[p..p + n])
    decreases n
  {
    if n > 0 {
      LittleIs(b, p + 1, n - 1);
      assert b[p..p + n][1..] == b[p + 1..p + 1 + (n - 1)];
    }
  }

  lemma ValueScalar(b: seq<byte>, p: nat)
    requires p < |b| && (b[p] % 128 <= 37 || b[p] % 128 in {57, 58, 59})
    ensures ValueAt(b, p, 0) == Scalar(b, b[p] % 128, p + 1)
  {
    TagFirst(b, p, b[p] % 128, 0);
    hide ValueAt, Scalar, ArrayAt, HashAt, CopyOffset;
  }

  /** Numbers, floats and constants. */
  lemma DecodesScalar(b: seq<byte>, p: nat)
    requires p < |b| && Scan(b, p).Some? && Decodable(b, p)
    requires b[p] % 128 <= 37 || b[p] % 128 in {57, 58, 59}
    ensures ValueAt(b, p, 0).Good? && ValueAt(b, p, 0).next == Scan(b, p).value.1
    ensures Denotes(ValueAt(b, p, 0).value, Tree(Scan(b, p).value.0, []))
  {
    ValueScalar(b, p);
    hide Scan, Read, ValueAt, Denotes, Scalar;
    if b[p] % 128 in {32, 33} {
      ScalarNumber(b, p);
    } else if b[p] % 128 in {34, 35} {
      ScalarFixed(b, p);
    } else {
      ScalarBare(b, p);
    }
  }

  lemma ScalarBare(b: seq<byte>, p: nat)
    requires p < |b| && (b[p] % 128 <= 31 || b[p] % 128 in {37, 57, 58, 59})
    ensures Scan(b, p).Some? && Scalar(b, b[p] % 128, p + 1).Good? && Scalar(b, b[p] % 128, p + 1).next == Scan(b, p).value.1
    ensures Denotes(Scalar(b, b[p] % 128, p + 1).value, Tree(Scan(b, p).value.0, []))
  {
    ReadsValue(b, p);
    hide Scan;
  }

  lemma ScalarNumber(b: seq<byte>, p: nat)
    requires p < |b| && b[p] % 128 in {32, 33} && Scan(b, p).Some?
    ensures Scalar(b, b[p] % 128, p + 1).Good? && Scalar(b, b[p] % 128, p + 1).next == Scan(b, p).value.1
    ensures Denotes(Scalar(b, b[p] % 128, p + 1).value, Tree(Scan(b, p).value.0, []))
  {
    ReadsValue(b, p);
    hide Scan, Read;
  }

  lemma ScalarFixed(b: seq<byte>, p: nat)
    requires p < |b| && b[p] % 128 in {34, 35} && Scan(b, p).Some?
    ensures Scalar(b, b[p] % 128, p + 1).Good? && Scalar(b, b[p] % 128, p + 1).next == Scan(b, p).value.1
    ensures Denotes(Scalar(b, b[p] % 128, p + 1).value, Tree(Scan(b, p).value.0, []))
  {
    ReadsValue(b, p);
    hide Scan, Little, FromBytes;
    if b[p] % 128 == 34 {
      LittleIs(b, p + 1, 4);
    } else {
      LittleIs(b, p + 1, 8);
    }
  }

  /** A COPY decodes to what its target decodes to, and goes on behind the COPY. */
  lemma DecodesCopy(b: seq<byte>, p: nat, c: nat)
    requires c == 0 && p < |b| && b[p] % 128 == 47
    ensures match Read(b, p + 1)
            case None => ValueAt(b, p, c) == Fail(BadVarint) && StringAt(b, p, c) == Fail(BadVarint)
            case Some((x, q)) =>
              && (x > p ==> ValueAt(b, p, c) == Fail(BadOffset) && StringAt(b, p, c) == Fail(BadOffset))
              && (x <= p ==> ValueAt(b, p, c) == (match ValueAt(b, x, 1) case Fail(e) => Fail(e) case Good(v, _) => Good(v, q)))
              && (x <= p ==> StringAt(b, p, c) == (match StringAt(b, x, 1) case Fail(e) => Fail(e) case Good(s, _) => Good(s, q)))
  {
    TagFirst(b, p, 47, c);
    hide Read, ValueAt, StringAt, ArrayAt, HashAt, Scalar;
  }

  /** A COPY inside what a COPY copies is refused. */
  lemma NoNestedCopy(b: seq<byte>, p: nat)
    requires p < |b| && b[p] % 128 == 47
    ensures ValueAt(b, p, 1) == Fail(NestedCopy) && StringAt(b, p, 1) == Fail(NestedCopy)
  {
    TagFirst(b, p, 47, 1);
    hide Read, ValueAt, StringAt, ArrayAt, HashAt, Scalar;
  }

  /** Of a regular expression the first string is the pattern and the second the modifiers. */
  lemma DecodesRegexp(b: seq<byte>, p: nat, c: nat)
    requires c <= 1 && p < |b| && b[p] % 128 == 49
    ensures ValueAt(b, p, c) ==
            match StringAt(b, p + 1, c)
            case Fail(e) => Fail(e)
            case Good(pattern, q) =>
              match StringAt(b, q, c)
              case Fail(e) => Fail(e)
              case Good(modifiers, r) => Good(Regexp(pattern, modifiers), r)
  {
    TagFirst(b, p, 49, c);
    hide Read, ValueAt, StringAt, ArrayAt, HashAt, Scalar, CopyOffset;
  }

  /** These are not decoded at all. */
  lemma NotDecoded(b: seq<byte>, p: nat, c: nat)
    requires c <= 1 && p < |b| && b[p] % 128 in {36, 41, 44, 45, 46, 50, 51, 52, 53, 54, 55, 56, 60, 61, 62}
    ensures ValueAt(b, p, c) == Fail(if b[p] % 128 in {41, 44, 45, 46, 50, 51} then Unsupported else UnknownTag)
  {
    TagFirst(b, p, b[p] % 128, c);
    hide ValueAt, StringAt;
    NoneOf(b, b[p] % 128, p + 1, c);
  }

  lemma NoneOf(b: seq<byte>, tag: nat, q: nat, c: nat)
    requires c <= 1 && q <= |b| && tag in {36, 41, 44, 45, 46, 50, 51, 52, 53, 54, 55, 56, 60, 61, 62}
    ensures ValueOf(b, tag, q, c) == Fail(if tag in {41, 44, 45, 46, 50, 51} then Unsupported else UnknownTag)
  {
    hide Read, ValueAt, StringAt, ArrayAt, HashAt, CopyOffset;
  }

  // ----- items -----

  /** What stands in front of an item without showing: padding, a reference, a weak reference. */
  lemma DecodesBehind(b: seq<byte>, p: nat)
    requires p < |b| && b[p] % 128 in {40, 48, 63}
    ensures ValueAt(b, p, 0) == ValueAt(b, p + 1, 0)
  {
    if b[p] % 128 != 63 {
      TagFirst(b, p, b[p] % 128, 0);
      hide ValueAt;
    } else {
      hide ValueOf;
      assert Skip(b, p) == Skip(b, p + 1);
    }
  }

  lemma SizeHere(b: seq<byte>, p: nat, tag: nat)
    requires p < |b| && tag == b[p] % 128 && Scan(b, p).Some? && Group(tag)
    ensures Scan(b, p).value.0.Open? && Scan(b, p).value.0.count <= 2147483647
    ensures SizeOf(b, tag, p + 1) == Good(Scan(b, p).value.0.count, Scan(b, p).value.1)
    ensures Wants(Scan(b, p).value.0) == if IsArray(tag) then Items(Scan(b, p).value.0.count) else Pairs(Scan(b, p).value.0.count)
    ensures Scan(b, p).value.0.tag == if tag >= 80 then 80 else if tag >= 64 then 64 else tag
  {
    ReadsOther(b, p);
    GroupWants(Scan(b, p).value.0.count);
    hide Scan, Read;
  }

  /** n places are filled by at least as many bytes. */
  lemma {:induction false} Bytewise(b: seq<byte>, p: nat, todo: seq<Want>)
    requires Parse(b, p, todo).Some? && p <= |b|
    ensures p + |todo| <= Parse(b, p, todo).value <= |b|
    decreases |b| - p
  {
    hide Scan;
    if todo != [] {
      var (t, q) := Scan(b, p).value;
      Bytewise(b, q, Wants(t) + todo[1..]);
    }
  }

  lemma ArrayHere(b: seq<byte>, p: nat, tag: nat, n: nat, q: nat, vs: seq<Value>, e: nat)
    requires p < |b| && tag == b[p] % 128 && IsArray(tag) && SizeOf(b, tag, p + 1) == Good(n, q) && q <= |b|
    requires n <= 2147483647 && q + n <= |b| && ValuesAt(b, q, n, 0) == Good(vs, e)
    ensures ValueAt(b, p, 0) == Good(Array(vs), e)
  {
    ArrayInside(b, p + 1, tag, n, q, vs, e);
    GroupValue(b, p, tag);
    hide ValueAt, HashAt, ArrayAt, SizeOf, ValuesAt, IsArray, IsHash;
  }

  lemma GroupValue(b: seq<byte>, p: nat, tag: nat)
    requires p < |b| && tag == b[p] % 128
    ensures IsArray(tag) ==> ValueAt(b, p, 0) == ArrayAt(b, p + 1, tag, 0)
    ensures IsHash(tag) ==> ValueAt(b, p, 0) == HashAt(b, p + 1, tag, 0) && !IsArray(tag)
  {
    if tag != 63 {
      TagFirst(b, p, tag, 0);
    }
    hide ValueAt, HashAt, ArrayAt, StringAt, Scalar, CopyOffset;
  }

  lemma ArrayInside(b: seq<byte>, r: nat, tag: nat, n: nat, q: nat, vs: seq<Value>, e: nat)
    requires r <= |b| && SizeOf(b, tag, r) == Good(n, q) && q <= |b|
    requires n <= 2147483647 && q + n <= |b| && ValuesAt(b, q, n, 0) == Good(vs, e)
    ensures ArrayAt(b, r, tag, 0) == Good(Array(vs), e)
  {
    hide SizeOf, ValuesAt;
  }

  lemma HashHere(b: seq<byte>, p: nat, tag: nat, n: nat, q: nat, m: map<seq<byte>, Value>, e: nat)
    requires p < |b| && tag == b[p] % 128 && IsHash(tag) && SizeOf(b, tag, p + 1) == Good(n, q) && q <= |b|
    requires n <= 2147483647 && q + 2 * n <= |b| && PairsAt(b, q, n, 0, map[]) == Good(m, e)
    ensures ValueAt(b, p, 0) == Good(Dict(m), e)
  {
    HashInside(b, p + 1, tag, n, q, m, e);
    GroupValue(b, p, tag);
    hide ValueAt, HashAt, ArrayAt, SizeOf, PairsAt, IsArray, IsHash;
  }

  lemma HashInside(b: seq<byte>, r: nat, tag: nat, n: nat, q: nat, m: map<seq<byte>, Value>, e: nat)
    requires r <= |b| && SizeOf(b, tag, r) == Good(n, q) && q <= |b|
    requires n <= 2147483647 && q + 2 * n <= |b| && PairsAt(b, q, n, 0, map[]) == Good(m, e)
    ensures HashAt(b, r, tag, 0) == Good(Dict(m), e)
  {
    hide SizeOf, PairsAt;
  }

  /** Where an item begins there is a tag that can be decoded, and its children follow. */
  lemma ItemStarts(b: seq<byte>, p: nat, e: nat)
    requires Parse(b, p, [Item]) == Some(e) && AllDecodable(b, p, e)
    ensures p < |b| && Scan(b, p).Some? && p < Scan(b, p).value.1 <= e <= |b| && Decodable(b, p)
    ensures Parse(b, Scan(b, p).value.1, Wants(Scan(b, p).value.0)) == Some(e)
    ensures AllDecodable(b, Scan(b, p).value.1, e)
    ensures b[p] % 128 !in {36, 41, 44, 45, 46, 49, 50, 51, 52, 53, 54, 55, 56, 60, 61, 62}
  {
    ParseItem(b, p);
    PathSelf(b, p);
    ReadsThere(b, p);
    hide Scan, Parse;
    PathStep(b, p, p);
    DecodableFrom(b, p, e, Scan(b, p).value.1, e);
  }

  lemma ReadsThere(b: seq<byte>, p: nat)
    ensures Scan(b, p).Some? ==> p < |b| && b[p] % 128 !in {52, 53, 54, 55, 56, 60, 61}
  {
    if p < |b| {
      ReadsOther(b, p);
    }
  }

  /** A tag without children ends its item. */
  lemma NoChildren(b: seq<byte>, p: nat)
    requires p < |b| && Scan(b, p).Some? && (b[p] % 128 <= 39 || b[p] % 128 in {47, 57, 58, 59} || b[p] % 128 >= 96)
    ensures Parse(b, p, [Item]) == Some(Scan(b, p).value.1)
    ensures b[p] % 128 in {38, 39} || b[p] % 128 >= 96 ==> TextAt(b, p)
  {
    ReadsValue(b, p);
    ReadsOther(b, p);
    ParseItem(b, p);
    hide Scan, Read;
  }

  lemma OneChild(b: seq<byte>, p: nat, e: nat)
    requires Parse(b, p, [Item]) == Some(e)
    ensures Chain(b, p, [Item]) == Some([p])
  {
    hide Scan;
    ChainStep(b, p, e, Item, []);
    assert [Item] + [] == [Item] && Chain(b, e, []) == Some([]) && [p] + [] == [p];
  }

  /** A COPY in an item that can be decoded. */
  lemma DecodesCopied(b: seq<byte>, p: nat, d: nat)
    requires p < |b| && Scan(b, p).Some? && Decodable(b, p) && b[p] % 128 == 47
    ensures ValueAt(b, p, 0).Good? && ValueAt(b, p, 0).next == Scan(b, p).value.1
    ensures Denotes(ValueAt(b, p, 0).value, Meaning(b, p, d + 1))
    ensures StringAt(b, p, 0) == Good(Scan(b, Read(b, p + 1).value.0).value.0.content, Scan(b, p).value.1)
    ensures IsText(Meaning(b, p, d + 1)) && Meaning(b, p, d + 1).shape.content == StringAt(b, p, 0).value
  {
    ReadsOther(b, p);
    MeansOther(b, p, d);
    DecodesCopy(b, p, 0);
    hide Scan, ValueAt, StringAt, Meaning;
    DecodesText(b, Read(b, p + 1).value.0, 1);
    hide Read;
  }

  /** Reads no further item. */
  predicate Single(tag: nat) {
    tag <= 39 || tag in {47, 57, 58, 59} || tag >= 96
  }

  /** The item at p ends at e, and is decoded to what it denotes, to depth d. */
  ghost predicate Decoded(b: seq<byte>, p: nat, e: nat, d: nat) {
    && ValueAt(b, p, 0).Good? && ValueAt(b, p, 0).next == e
    && Denotes(ValueAt(b, p, 0).value, Meaning(b, p, d))
  }

  predicate Fronting(tag: nat) {
    tag == 40 || tag == 48 || tag == 63
  }

  predicate Group(tag: nat) {
    tag == 42 || tag == 43 || 64 <= tag <= 95
  }

  lemma DecodesSingle(b: seq<byte>, p: nat, e: nat, d: nat)
    requires Parse(b, p, [Item]) == Some(e) && AllDecodable(b, p, e) && p < |b| && Single(b[p] % 128) && d > 0
    ensures Decoded(b, p, e, d)
  {
    ItemStarts(b, p, e);
    NoChildren(b, p);
    hide Scan, Parse, ValueAt, StringAt, Meaning, Read, AllDecodable, Decodable, Denotes, IsText;
    var tag := b[p] % 128;
    if tag == 47 {
      DecodesCopied(b, p, d - 1);
    } else if tag <= 37 || tag in {57, 58, 59} {
      MeansItself(b, p, d - 1);
      DecodesScalar(b, p);
    } else {
      DecodesSpelled(b, p, d - 1);
    }
  }

  lemma ItemKinds(b: seq<byte>, p: nat, e: nat)
    requires Parse(b, p, [Item]) == Some(e) && AllDecodable(b, p, e)
    ensures p < |b| && (Single(b[p] % 128) || Fronting(b[p] % 128) || Group(b[p] % 128))
  {
    ItemStarts(b, p, e);
  }

  /** A well-formed item of which all tags can be decoded is decoded, to its end, and to the value it denotes. */
  lemma {:induction false} DecodesItem(b: seq<byte>, p: nat, e: nat, d: nat)
    requires Parse(b, p, [Item]) == Some(e) && AllDecodable(b, p, e) && d >= e - p
    ensures Decoded(b, p, e, d)
    decreases e - p, 2
  {
    ItemKinds(b, p, e);
    ItemEnds(b, p, e);
    hide Scan, Parse, ValueAt, StringAt, Meaning, Read, AllDecodable, Decodable, Denotes, Chain, ValuesAt, PairsAt, PairsOk, ItemsOk,
      Entered, SizeOf, Wants, IsText, Single, Fronting, Group, IsArray, IsHash, Decoded;
    if Single(b[p] % 128) {
      DecodesSingle(b, p, e, d);
    } else if Fronting(b[p] % 128) {
      BehindStarts(b, p, e);
      DecodesItem(b, p + 1, e, if b[p] % 128 == 63 then d else d - 1);
      BehindMeans(b, p, e, d);
    } else {
      DecodesHolder(b, p, b[p] % 128, e, d);
    }
  }

  lemma {:induction false} DecodesHolder(b: seq<byte>, p: nat, tag: nat, e: nat, d: nat)
    requires Parse(b, p, [Item]) == Some(e) && AllDecodable(b, p, e) && d >= e - p > 0 && p < |b|
    requires tag == b[p] % 128 && Group(tag)
    ensures Decoded(b, p, e, d)
    decreases e - p, 1
  {
    var t, q, n := HolderStarts(b, p, tag, e);
    hide Scan, Parse, ValueAt, AllDecodable, Group, IsArray, IsHash, Decoded, Items, Pairs;
    if IsArray(tag) {
      DecodesArray(b, p, tag, t, q, n, e, d);
    } else {
      DecodesHash(b, p, tag, t, q, n, e, d);
    }
  }

  lemma {:induction false} DecodesArray(b: seq<byte>, p: nat, tag: nat, t: Token, q: nat, n: nat, e: nat, d: nat)
    requires p < q <= e <= |b| && Scan(b, p) == Some((t, q)) && tag == b[p] % 128 && IsArray(tag) && d >= e - p
    requires t.Open? && t.count == n && q + n <= e && Parse(b, q, Items(n)) == Some(e) && AllDecodable(b, q, e)
    ensures Decoded(b, p, e, d)
    decreases e - p, 0
  {
    hide Scan, Parse, ValueAt, AllDecodable, Items, ItemsDone, Decoded, IsArray;
    DecodesItems(b, q, n, e, d - 1);
    ArrayMeans(b, p, tag, t, q, n, e, d);
  }

  lemma {:induction false} DecodesHash(b: seq<byte>, p: nat, tag: nat, t: Token, q: nat, n: nat, e: nat, d: nat)
    requires p < q <= e <= |b| && Scan(b, p) == Some((t, q)) && tag == b[p] % 128 && IsHash(tag) && d >= e - p
    requires t.Open? && t.count == n && q + 2 * n <= e && Parse(b, q, Pairs(n)) == Some(e) && AllDecodable(b, q, e)
    ensures Decoded(b, p, e, d)
    decreases e - p, 0
  {
    hide Scan, Parse, ValueAt, AllDecodable, Pairs, PairsDone, Decoded, IsHash;
    var ks, vs := DecodesPairs(b, q, n, e, d - 1, map[]);
    HashMeans(b, p, tag, t, q, n, e, d, ks, vs);
  }

  lemma ItemEnds(b: seq<byte>, p: nat, e: nat)
    requires Parse(b, p, [Item]) == Some(e)
    ensures p < e
  {
  }

  lemma HolderStarts(b: seq<byte>, p: nat, tag: nat, e: nat) returns (t: Token, q: nat, n: nat)
    requires Parse(b, p, [Item]) == Some(e) && AllDecodable(b, p, e) && p < |b| && tag == b[p] % 128 && Group(tag)
    ensures Scan(b, p) == Some((t, q)) && t.Open? && t.count == n && (IsArray(tag) || IsHash(tag))
    ensures p < q <= e <= |b| && AllDecodable(b, q, e)
    ensures IsArray(tag) ==> Parse(b, q, Items(n)) == Some(e) && q + n <= e
    ensures !IsArray(tag) ==> Parse(b, q, Pairs(n)) == Some(e) && q + 2 * n <= e
  {
    ItemStarts(b, p, e);
    SizeHere(b, p, tag);
    hide Scan, Parse, AllDecodable, Wants, SizeOf;
    t, q, n := Scan(b, p).value.0, Scan(b, p).value.1, Scan(b, p).value.0.count;
    Bytewise(b, q, Wants(t));
  }

  lemma DecodesSpelled(b: seq<byte>, p: nat, d: nat)
    requires p < |b| && TextAt(b, p) && Decodable(b, p) && (b[p] % 128 in {38, 39} || b[p] % 128 >= 96)
    ensures ValueAt(b, p, 0).Good? && ValueAt(b, p, 0).next == Scan(b, p).value.1
    ensures Denotes(ValueAt(b, p, 0).value, Meaning(b, p, d + 1))
    ensures StringAt(b, p, 0) == Good(Scan(b, p).value.0.content, Scan(b, p).value.1)
    ensures IsText(Meaning(b, p, d + 1)) && Meaning(b, p, d + 1).shape.content == StringAt(b, p, 0).value
  {
    MeansItself(b, p, d);
    DecodesText(b, p, 0);
    hide Scan, ValueAt, StringAt, Meaning;
  }

  lemma BehindStarts(b: seq<byte>, p: nat, e: nat)
    requires Parse(b, p, [Item]) == Some(e) && AllDecodable(b, p, e) && p < |b| && Fronting(b[p] % 128)
    ensures Parse(b, p + 1, [Item]) == Some(e) && AllDecodable(b, p + 1, e) && Scan(b, p).Some?
  {
    ItemStarts(b, p, e);
    ReadsOther(b, p);
    hide Scan, Parse, AllDecodable;
  }

  lemma BehindMeans(b: seq<byte>, p: nat, e: nat, d: nat)
    requires p < |b| && Scan(b, p).Some? && Fronting(b[p] % 128) && Parse(b, p + 1, [Item]) == Some(e) && d > 0
    requires Decoded(b, p + 1, e, if b[p] % 128 == 63 then d else d - 1)
    ensures Decoded(b, p, e, d)
  {
    DecodesBehind(b, p);
    hide Scan, Parse, Meaning, Read, ValueAt;
    if b[p] % 128 == 63 {
      MeansOther(b, p, d);
    } else {
      RefMeans(b, p, e, d - 1);
    }
  }

  lemma RefMeans(b: seq<byte>, p: nat, e: nat, d: nat)
    requires p < |b| && b[p] % 128 in {40, 48} && Parse(b, p + 1, [Item]) == Some(e)
    ensures Meaning(b, p, d + 1) == Tree(Open(b[p] % 128, 0), [Meaning(b, p + 1, d)])
  {
    ReadsOther(b, p);
    OneChild(b, p + 1, e);
    Follows(0, 0, 0);
    hide Scan, Parse, Meaning, Read, Wants, Chain;
    MeansHolder(b, p, d);
    assert Meanings(b, [p + 1], d) == [Meaning(b, p + 1, d)];
  }

  ghost predicate ItemsOk(b: seq<byte>, at: seq<nat>, vs: seq<Value>, d: nat) {
    |at| == |vs| && forall k :: 0 <= k < |vs| ==> Denotes(vs[k], Meaning(b, at[k], d))
  }

  ghost predicate ItemsDone(b: seq<byte>, p: nat, n: nat, e: nat, d: nat) {
    && p <= |b| && ValuesAt(b, p, n, 0).Good? && ValuesAt(b, p, n, 0).next == e && Chain(b, p, Items(n)).Some?
    && ItemsOk(b, Chain(b, p, Items(n)).value, ValuesAt(b, p, n, 0).value, d)
  }

  /** The items of an array. */
  lemma {:induction false} DecodesItems(b: seq<byte>, p: nat, n: nat, e: nat, d: nat)
    requires Parse(b, p, Items(n)) == Some(e) && AllDecodable(b, p, e) && d >= e - p && p <= |b|
    ensures ItemsDone(b, p, n, e, d)
    decreases e - p, 3
  {
    if n == 0 {
      NoItemsDone(b, p, d);
    } else {
      var e1 := FirstItem(b, p, n, e);
      hide Scan, Parse, ValueAt, Meaning, Read, AllDecodable, Decodable, Denotes, Chain, ValuesAt, Decoded, ItemsDone;
      DecodesItem(b, p, e1, d);
      DecodesItems(b, e1, n - 1, e, d);
      ItemsStep(b, p, n, e1, e, d);
    }
  }

  lemma FirstItem(b: seq<byte>, p: nat, n: nat, e: nat) returns (e1: nat)
    requires n > 0 && Parse(b, p, Items(n)) == Some(e) && AllDecodable(b, p, e) && p <= |b|
    ensures Parse(b, p, [Item]) == Some(e1) && Parse(b, e1, Items(n - 1)) == Some(e) && p < e1 <= e && e1 <= |b|
    ensures AllDecodable(b, p, e1) && AllDecodable(b, e1, e) && Items(n) == [Item] + Items(n - 1)
  {
    hide Scan, Decodable;
    assert Items(n) == [Item] + Items(n - 1);
    ParseSplit(b, p, [Item], Items(n - 1));
    e1 := Parse(b, p, [Item]).value;
    Across(b, p, [Item]);
    PathSelf(b, p);
    DecodableFrom(b, p, e, p, e1);
    DecodableFrom(b, p, e, e1, e);
  }

  /** Filling places goes along the tags. */
  lemma {:induction false} Across(b: seq<byte>, p: nat, todo: seq<Want>)
    requires Parse(b, p, todo).Some?
    ensures Path(b, p, Parse(b, p, todo).value)
    decreases |b| - p
  {
    hide Scan;
    if todo != [] {
      var (t, q) := Scan(b, p).value;
      Across(b, q, Wants(t) + todo[1..]);
    }
  }

  lemma NoItemsDone(b: seq<byte>, p: nat, d: nat)
    requires p <= |b|
    ensures Parse(b, p, Items(0)) == Some(p) && ItemsDone(b, p, 0, p, d)
  {
  }

  lemma ItemsStep(b: seq<byte>, p: nat, n: nat, e1: nat, e: nat, d: nat)
    requires n > 0 && p <= |b| && Parse(b, p, [Item]) == Some(e1) && Items(n) == [Item] + Items(n - 1)
    requires Decoded(b, p, e1, d) && ItemsDone(b, e1, n - 1, e, d)
    ensures ItemsDone(b, p, n, e, d)
  {
    ChainStep(b, p, e1, Item, Items(n - 1));
    ValuesUnfold(b, p, n);
    hide Scan, Parse, ValueAt, Meaning, Denotes, Chain, ValuesAt, Items;
    var vs, ks := ValuesAt(b, e1, n - 1, 0).value, Chain(b, e1, Items(n - 1)).value;
    assert Chain(b, p, Items(n)).value == [p] + ks;
    ItemsMore(b, p, ValueAt(b, p, 0).value, ks, vs, d);
  }

  lemma ValuesUnfold(b: seq<byte>, p: nat, n: nat)
    requires n > 0 && p <= |b| && ValueAt(b, p, 0).Good?
    ensures ValuesAt(b, p, n, 0) == Map(ValuesAt(b, ValueAt(b, p, 0).next, n - 1, 0), vs => [ValueAt(b, p, 0).value] + vs)
  {
    hide ValueAt;
  }

  lemma ItemsMore(b: seq<byte>, p: nat, v: Value, ks: seq<nat>, vs: seq<Value>, d: nat)
    requires ItemsOk(b, ks, vs, d) && Denotes(v, Meaning(b, p, d))
    ensures ItemsOk(b, [p] + ks, [v] + vs, d)
  {
    hide Meaning, Denotes;
  }

  lemma ArrayMeans(b: seq<byte>, p: nat, tag: nat, t: Token, q: nat, n: nat, e: nat, d: nat)
    requires p < |b| && Scan(b, p) == Some((t, q)) && tag == b[p] % 128 && IsArray(tag) && e <= |b| && d > 0
    requires t.Open? && t.count == n && q + n <= e && ItemsDone(b, q, n, e, d - 1)
    ensures Decoded(b, p, e, d)
  {
    var vs := ArrayValue(b, p, tag, t, q, n, e, d - 1);
    var ks := ArrayTree(b, p, tag, t, q, n, e, d, vs);
    hide *;
    DecodedIs(b, p, e, d, Array(vs), Tree(t, Meanings(b, ks, d - 1)));
  }

  lemma DecodedIs(b: seq<byte>, p: nat, e: nat, d: nat, v: Value, u: Tree)
    requires ValueAt(b, p, 0) == Good(v, e) && Meaning(b, p, d) == u && Denotes(v, u)
    ensures Decoded(b, p, e, d)
  {
    hide ValueAt, Meaning, Denotes;
  }

  lemma ArrayValue(b: seq<byte>, p: nat, tag: nat, t: Token, q: nat, n: nat, e: nat, d: nat) returns (vs: seq<Value>)
    requires p < |b| && Scan(b, p) == Some((t, q)) && tag == b[p] % 128 && IsArray(tag) && e <= |b|
    requires t.Open? && t.count == n && q + n <= e && ItemsDone(b, q, n, e, d)
    ensures q <= |b| && ValuesAt(b, q, n, 0) == Good(vs, e) && ValueAt(b, p, 0) == Good(Array(vs), e)
  {
    var ks;
    ks, vs := ItemsFound(b, q, n, e, d);
    SizeKnown(b, p, tag, t, q, n);
    hide Scan, ValueAt, ValuesAt, ItemsDone, ItemsOk, SizeOf, Wants, IsArray, IsHash, Group, Items, Chain;
    ArrayHere(b, p, tag, n, q, vs, e);
  }

  lemma ArrayTree(b: seq<byte>, p: nat, tag: nat, t: Token, q: nat, n: nat, e: nat, d: nat, vs: seq<Value>) returns (ks: seq<nat>)
    requires p < |b| && Scan(b, p) == Some((t, q)) && tag == b[p] % 128 && IsArray(tag) && d > 0
    requires t.Open? && t.count == n && ItemsDone(b, q, n, e, d - 1) && ValuesAt(b, q, n, 0) == Good(vs, e)
    ensures Meaning(b, p, d) == Tree(t, Meanings(b, ks, d - 1)) && Denotes(Array(vs), Tree(t, Meanings(b, ks, d - 1)))
  {
    var us;
    ks, us := ItemsFound(b, q, n, e, d - 1);
    SizeKnown(b, p, tag, t, q, n);
    hide Scan, Meaning, ValuesAt, ItemsDone, ItemsOk, Denotes, SizeOf, Wants, IsArray, IsHash, Group, Items, Chain;
    HolderTree(b, p, tag, t, q, ks, d);
    ArrayDenotes(b, t, ks, vs, d - 1);
  }

  lemma ItemsFound(b: seq<byte>, q: nat, n: nat, e: nat, d: nat) returns (ks: seq<nat>, vs: seq<Value>)
    requires ItemsDone(b, q, n, e, d)
    ensures q <= |b| && ValuesAt(b, q, n, 0) == Good(vs, e) && Chain(b, q, Items(n)) == Some(ks) && ItemsOk(b, ks, vs, d)
    ensures |vs| == n
  {
    hide Scan, Parse, Meaning, Denotes, ItemsOk;
    ks, vs := Chain(b, q, Items(n)).value, ValuesAt(b, q, n, 0).value;
  }

  lemma SizeKnown(b: seq<byte>, p: nat, tag: nat, t: Token, q: nat, n: nat)
    requires p < |b| && Scan(b, p) == Some((t, q)) && tag == b[p] % 128 && (IsArray(tag) || IsHash(tag)) && t.Open? && t.count == n
    ensures Group(tag) && SizeOf(b, tag, p + 1) == Good(n, q) && n <= 2147483647
    ensures Wants(t) == if IsArray(tag) then Items(n) else Pairs(n)
    ensures IsArray(tag) ==> t.tag == 43 || t.tag == 64
    ensures IsHash(tag) ==> !IsArray(tag) && (t.tag == 42 || t.tag == 80)
  {
    SizeHere(b, p, tag);
    hide Scan, Read, SizeOf, Wants;
  }

  lemma HolderTree(b: seq<byte>, p: nat, tag: nat, t: Token, q: nat, ks: seq<nat>, d: nat)
    requires p < |b| && Scan(b, p) == Some((t, q)) && tag == b[p] % 128 && Group(tag) && d > 0
    requires Chain(b, q, Wants(t)) == Some(ks)
    ensures Meaning(b, p, d) == Tree(t, Meanings(b, ks, d - 1))
  {
    hide Scan, Meaning, Chain, Wants;
    MeansHolder(b, p, d - 1);
  }

  lemma ArrayDenotes(b: seq<byte>, t: Token, ks: seq<nat>, vs: seq<Value>, d: nat)
    requires ItemsOk(b, ks, vs, d) && t.Open? && t.count == |vs| && (t.tag == 43 || t.tag == 64)
    ensures Denotes(Array(vs), Tree(t, Meanings(b, ks, d)))
  {
    hide Meaning;
  }

  // ----- hashes -----

  /** Keys and values entered one after the other. */
  function Entered(m: map<seq<byte>, Value>, ks: seq<seq<byte>>, vs: seq<Value>): map<seq<byte>, Value>
    requires |ks| == |vs|
    decreases |ks|
  {
    if ks == [] then m else Entered(m[ks[0] := vs[0]], ks[1..], vs[1..])
  }

  lemma {:induction false} EnteredKeys(m: map<seq<byte>, Value>, ks: seq<seq<byte>>, vs: seq<Value>)
    requires |ks| == |vs|
    ensures forall s :: s in Entered(m, ks, vs) <==> s in m || s in ks
    ensures forall s :: s in m && s !in ks ==> s in Entered(m, ks, vs) && Entered(m, ks, vs)[s] == m[s]
    decreases |ks|
  {
    if ks != [] {
      EnteredKeys(m[ks[0] := vs[0]], ks[1..], vs[1..]);
      assert ks == [ks[0]] + ks[1..];
    }
  }

  lemma {:induction false} EnteredLast(m: map<seq<byte>, Value>, ks: seq<seq<byte>>, vs: seq<Value>, i: nat)
    requires |ks| == |vs| && i < |ks| && forall j :: i < j < |ks| ==> ks[j] != ks[i]
    ensures ks[i] in Entered(m, ks, vs) && Entered(m, ks, vs)[ks[i]] == vs[i]
    decreases |ks|
  {
    if i == 0 {
      EnteredKeys(m[ks[0] := vs[0]], ks[1..], vs[1..]);
      assert ks[0] !in ks[1..];
    } else {
      EnteredLast(m[ks[0] := vs[0]], ks[1..], vs[1..], i - 1);
    }
  }

  /** The i-th pair of a hash whose places are `at`. */
  ghost predicate PairOk(b: seq<byte>, at: seq<nat>, ks: seq<seq<byte>>, vs: seq<Value>, d: nat, i: nat)
    requires |at| == 2 * |ks| && |ks| == |vs| && i < |ks|
  {
    && IsText(Meaning(b, at[2 * i], d)) && Meaning(b, at[2 * i], d).shape.content == ks[i]
    && Denotes(vs[i], Meaning(b, at[2 * i + 1], d))
  }

  ghost predicate PairsOk(b: seq<byte>, at: seq<nat>, ks: seq<seq<byte>>, vs: seq<Value>, d: nat) {
    && |at| == 2 * |ks| && |ks| == |vs|
    && forall i :: 0 <= i < |ks| ==> PairOk(b, at, ks, vs, d, i)
  }

  /** A key. */
  lemma DecodesKey(b: seq<byte>, p: nat, e: nat, d: nat)
    requires Parse(b, p, [Key]) == Some(e) && Decodable(b, p) && p < |b|
    ensures StringAt(b, p, 0).Good? && StringAt(b, p, 0).next == e
    ensures IsText(Meaning(b, p, d + 1)) && Meaning(b, p, d + 1).shape.content == StringAt(b, p, 0).value
  {
    ParseKey(b, p);
    StringTag(b, p);
    NoChildren0(b, p);
    hide Scan, Parse, Meaning, StringAt, Read;
    if b[p] % 128 == 47 {
      DecodesCopied(b, p, d);
    } else {
      DecodesSpelled(b, p, d);
    }
  }

  lemma NoChildren0(b: seq<byte>, p: nat)
    requires p < |b|
    ensures Scan(b, p).Some? && (b[p] % 128 in {38, 39} || b[p] % 128 >= 96) ==> TextAt(b, p)
  {
    ReadsValue(b, p);
    hide Scan, Read;
  }

  lemma FirstPair(b: seq<byte>, p: nat, n: nat, e: nat) returns (e0: nat, e1: nat)
    requires n > 0 && Parse(b, p, Pairs(n)) == Some(e) && AllDecodable(b, p, e) && p <= |b|
    ensures Parse(b, p, [Key]) == Some(e0) && Parse(b, e0, [Item]) == Some(e1) && Parse(b, e1, Pairs(n - 1)) == Some(e)
    ensures p < e0 < e1 <= e && e1 <= |b| && p < |b| && Decodable(b, p) && AllDecodable(b, e0, e1) && AllDecodable(b, e1, e)
    ensures Pairs(n) == [Key] + ([Item] + Pairs(n - 1))
  {
    hide Scan, Decodable;
    assert Pairs(n) == [Key] + ([Item] + Pairs(n - 1));
    ParseSplit(b, p, [Key], [Item] + Pairs(n - 1));
    e0 := Parse(b, p, [Key]).value;
    ParseSplit(b, e0, [Item], Pairs(n - 1));
    e1 := Parse(b, e0, [Item]).value;
    Across(b, p, [Key]);
    Across(b, e0, [Item]);
    PathSelf(b, p);
    PathTrans(b, p, e0, e1);
    DecodableFrom(b, p, e, e0, e1);
    DecodableFrom(b, p, e, e1, e);
  }

  ghost predicate PairsDone(b: seq<byte>, p: nat, n: nat, e: nat, d: nat, m: map<seq<byte>, Value>, ks: seq<seq<byte>>, vs: seq<Value>) {
    && p <= |b| && |ks| == |vs| == n && PairsAt(b, p, n, 0, m) == Good(Entered(m, ks, vs), e)
    && Chain(b, p, Pairs(n)).Some? && PairsOk(b, Chain(b, p, Pairs(n)).value, ks, vs, d)
  }

  /** The pairs of a hash. */
  lemma {:induction false} DecodesPairs(b: seq<byte>, p: nat, n: nat, e: nat, d: nat, m: map<seq<byte>, Value>)
    returns (ks: seq<seq<byte>>, vs: seq<Value>)
    requires Parse(b, p, Pairs(n)) == Some(e) && AllDecodable(b, p, e) && d >= e - p && p <= |b|
    ensures PairsDone(b, p, n, e, d, m, ks, vs)
    decreases e - p, 3
  {
    if n == 0 {
      NoPairs(b, p, m, d);
      ks, vs := [], [];
    } else {
      var e0, e1 := FirstPair(b, p, n, e);
      hide Scan, Parse, ValueAt, StringAt, Meaning, Read, AllDecodable, Decodable, Denotes, Chain, PairsAt, PairsOk, Entered, IsText, Pairs, PairsDone, Decoded;
      DecodesKey(b, p, e0, d - 1);
      DecodesItem(b, e0, e1, d);
      DecodedValue(b, e0, e1, d);
      var k, v := StringAt(b, p, 0).value, ValueAt(b, e0, 0).value;
      var ks1, vs1 := DecodesPairs(b, e1, n - 1, e, d, m[k := v]);
      ks, vs := [k] + ks1, [v] + vs1;
      PairsStep(b, p, n, e0, e1, e, d, m, k, v, ks1, vs1);
    }
  }

  lemma DecodedValue(b: seq<byte>, p: nat, e: nat, d: nat)
    requires Decoded(b, p, e, d)
    ensures ValueAt(b, p, 0).Good? && ValueAt(b, p, 0).next == e && Denotes(ValueAt(b, p, 0).value, Meaning(b, p, d))
  {
    hide ValueAt, Meaning, Denotes;
  }

  lemma NoPairs(b: seq<byte>, p: nat, m: map<seq<byte>, Value>, d: nat)
    requires p <= |b|
    ensures Parse(b, p, Pairs(0)) == Some(p) && PairsDone(b, p, 0, p, d, m, [], [])
  {
  }

  lemma PairsStep(b: seq<byte>, p: nat, n: nat, e0: nat, e1: nat, e: nat, d: nat, m: map<seq<byte>, Value>,
                  k: seq<byte>, v: Value, ks: seq<seq<byte>>, vs: seq<Value>)
    requires n > 0 && p <= e0 <= e1 <= |b| && Pairs(n) == [Key] + ([Item] + Pairs(n - 1))
    requires Parse(b, p, [Key]) == Some(e0) && Parse(b, e0, [Item]) == Some(e1) && |ks| == |vs| == n - 1
    requires StringAt(b, p, 0) == Good(k, e0) && ValueAt(b, e0, 0) == Good(v, e1)
    requires IsText(Meaning(b, p, d)) && Meaning(b, p, d).shape.content == k && Denotes(v, Meaning(b, e0, d))
    requires PairsDone(b, e1, n - 1, e, d, m[k := v], ks, vs)
    ensures PairsDone(b, p, n, e, d, m, [k] + ks, [v] + vs)
  {
    var at := PairsFound(b, e1, n - 1, e, d, m[k := v], ks, vs);
    PairChain(b, p, n, e0, e1, at);
    hide Scan, Parse, ValueAt, StringAt, Meaning, Denotes, Chain, IsText, PairsOk, Pairs, PairsAt, Entered;
    PairsUnfold(b, p, n, m, k, e0, v, e1);
    EnteredStep(m, k, v, ks, vs);
    PairsMore(b, p, e0, at, k, v, ks, vs, d);
  }

  lemma PairChain(b: seq<byte>, p: nat, n: nat, e0: nat, e1: nat, at: seq<nat>)
    requires n > 0 && Pairs(n) == [Key] + ([Item] + Pairs(n - 1)) && Chain(b, e1, Pairs(n - 1)) == Some(at)
    requires Parse(b, p, [Key]) == Some(e0) && Parse(b, e0, [Item]) == Some(e1)
    ensures Chain(b, p, Pairs(n)) == Some([p, e0] + at)
  {
    hide Scan, Parse, Chain, Pairs;
    TwoChained(b, p, e0, e1, Pairs(n - 1), at);
  }

  lemma TwoChained(b: seq<byte>, p: nat, e0: nat, e1: nat, ws: seq<Want>, at: seq<nat>)
    requires Parse(b, p, [Key]) == Some(e0) && Parse(b, e0, [Item]) == Some(e1) && Chain(b, e1, ws) == Some(at)
    ensures Chain(b, p, [Key] + ([Item] + ws)) == Some([p, e0] + at)
  {
    hide Scan, Parse, Chain;
    ChainStep(b, p, e0, Key, [Item] + ws);
    ChainStep(b, e0, e1, Item, ws);
    assert [p] + ([e0] + at) == [p, e0] + at;
  }

  lemma EnteredStep(m: map<seq<byte>, Value>, k: seq<byte>, v: Value, ks: seq<seq<byte>>, vs: seq<Value>)
    requires |ks| == |vs|
    ensures Entered(m, [k] + ks, [v] + vs) == Entered(m[k := v], ks, vs)
  {
    assert ([k] + ks)[1..] == ks && ([v] + vs)[1..] == vs;
  }

  lemma PairsUnfold(b: seq<byte>, p: nat, n: nat, m: map<seq<byte>, Value>, k: seq<byte>, e0: nat, v: Value, e1: nat)
    requires n > 0 && p <= |b| && e0 <= |b| && e1 <= |b| && StringAt(b, p, 0) == Good(k, e0) && ValueAt(b, e0, 0) == Good(v, e1)
    ensures PairsAt(b, p, n, 0, m) == PairsAt(b, e1, n - 1, 0, m[k := v])
  {
    hide StringAt, ValueAt;
  }

  lemma PairsMore(b: seq<byte>, p: nat, e0: nat, at: seq<nat>, k: seq<byte>, v: Value, ks: seq<seq<byte>>, vs: seq<Value>, d: nat)
    requires PairsOk(b, at, ks, vs, d)
    requires IsText(Meaning(b, p, d)) && Meaning(b, p, d).shape.content == k && Denotes(v, Meaning(b, e0, d))
    ensures PairsOk(b, [p, e0] + at, [k] + ks, [v] + vs, d)
  {
    hide Meaning, Denotes, IsText;
    var at' := [p, e0] + at;
    forall i | 0 <= i < |ks| + 1
      ensures PairOk(b, at', [k] + ks, [v] + vs, d, i)
    {
      if i > 0 {
        assert PairOk(b, at, ks, vs, d, i - 1);
        assert at'[2 * i] == at[2 * (i - 1)] && at'[2 * i + 1] == at[2 * (i - 1) + 1];
      }
    }
  }

  lemma HashMeans(b: seq<byte>, p: nat, tag: nat, t: Token, q: nat, n: nat, e: nat, d: nat, ks: seq<seq<byte>>, vs: seq<Value>)
    requires p < |b| && Scan(b, p) == Some((t, q)) && tag == b[p] % 128 && IsHash(tag) && e <= |b| && d > 0
    requires t.Open? && t.count == n && q + 2 * n <= e && PairsDone(b, q, n, e, d - 1, map[], ks, vs)
    ensures Decoded(b, p, e, d)
  {
    var m := HashValue(b, p, tag, t, q, n, e, d - 1, ks, vs);
    var at := HashTree(b, p, tag, t, q, n, e, d, ks, vs, m);
    hide *;
    DecodedIs(b, p, e, d, Dict(m), Tree(t, Meanings(b, at, d - 1)));
  }

  lemma HashValue(b: seq<byte>, p: nat, tag: nat, t: Token, q: nat, n: nat, e: nat, d: nat, ks: seq<seq<byte>>, vs: seq<Value>)
    returns (m: map<seq<byte>, Value>)
    requires p < |b| && Scan(b, p) == Some((t, q)) && tag == b[p] % 128 && IsHash(tag) && e <= |b|
    requires t.Open? && t.count == n && q + 2 * n <= e && PairsDone(b, q, n, e, d, map[], ks, vs)
    ensures |ks| == |vs| && m == Entered(map[], ks, vs) && ValueAt(b, p, 0) == Good(Dict(m), e)
  {
    var at := PairsFound(b, q, n, e, d, map[], ks, vs);
    SizeKnown(b, p, tag, t, q, n);
    m := Entered(map[], ks, vs);
    hide Scan, ValueAt, Chain, PairsAt, PairsDone, PairsOk, SizeOf, Wants, IsArray, IsHash, Group, Pairs, Entered;
    HashHere(b, p, tag, n, q, m, e);
  }

  lemma HashTree(b: seq<byte>, p: nat, tag: nat, t: Token, q: nat, n: nat, e: nat, d: nat, ks: seq<seq<byte>>, vs: seq<Value>,
                 m: map<seq<byte>, Value>) returns (at: seq<nat>)
    requires p < |b| && Scan(b, p) == Some((t, q)) && tag == b[p] % 128 && IsHash(tag) && d > 0
    requires t.Open? && t.count == n && PairsDone(b, q, n, e, d - 1, map[], ks, vs) && |ks| == |vs| && m == Entered(map[], ks, vs)
    ensures Meaning(b, p, d) == Tree(t, Meanings(b, at, d - 1)) && Denotes(Dict(m), Tree(t, Meanings(b, at, d - 1)))
  {
    at := PairsFound(b, q, n, e, d - 1, map[], ks, vs);
    SizeKnown(b, p, tag, t, q, n);
    hide Scan, Meaning, Chain, PairsAt, PairsDone, PairsOk, Denotes, SizeOf, Wants, IsArray, IsHash, Group, Pairs, Entered;
    HolderTree(b, p, tag, t, q, at, d);
    DictDenotes(b, at, ks, vs, d - 1, t);
  }

  lemma PairsFound(b: seq<byte>, q: nat, n: nat, e: nat, d: nat, m: map<seq<byte>, Value>, ks: seq<seq<byte>>, vs: seq<Value>)
    returns (at: seq<nat>)
    requires PairsDone(b, q, n, e, d, m, ks, vs)
    ensures q <= |b| && PairsAt(b, q, n, 0, m) == Good(Entered(m, ks, vs), e) && Chain(b, q, Pairs(n)) == Some(at)
    ensures PairsOk(b, at, ks, vs, d) && |ks| == |vs| == n
  {
    hide Scan, Parse, Meaning, Denotes, PairsOk, PairsAt, Entered;
    at := Chain(b, q, Pairs(n)).value;
  }

  lemma DictDenotes(b: seq<byte>, at: seq<nat>, ks: seq<seq<byte>>, vs: seq<Value>, d: nat, t: Token)
    requires PairsOk(b, at, ks, vs, d) && t.Open? && t.count == |ks| && (t.tag == 42 || t.tag == 80)
    ensures Denotes(Dict(Entered(map[], ks, vs)), Tree(t, Meanings(b, at, d)))
  {
    hide Meaning, Entered;
    var kids, m := Meanings(b, at, d), Entered(map[], ks, vs);
    EnteredKeys(map[], ks, vs);
    forall i | 0 <= i < |ks|
      ensures IsText(kids[2 * i]) && KeyAt(kids, i) == ks[i]
      ensures LastOf(kids, |ks|, i) ==> ks[i] in m && Denotes(m[ks[i]], kids[2 * i + 1])
    {
      PairKey(b, at, ks, vs, d, i);
      if LastOf(kids, |ks|, i) {
        forall j | i < j < |ks|
          ensures ks[j] != ks[i]
        {
          PairKey(b, at, ks, vs, d, j);
          assert KeyAt(kids, j) != KeyAt(kids, i);
        }
        EnteredLast(map[], ks, vs, i);
      }
    }
    forall s | s in m.Keys
      ensures exists i :: 0 <= i < |ks| && KeyAt(kids, i) == s
    {
      var i :| 0 <= i < |ks| && ks[i] == s;
      assert KeyAt(kids, i) == s;
    }
    assert KeysOf(m.Keys, kids, |ks|);
  }

  lemma PairKey(b: seq<byte>, at: seq<nat>, ks: seq<seq<byte>>, vs: seq<Value>, d: nat, i: nat)
    requires PairsOk(b, at, ks, vs, d) && i < |ks|
    ensures IsText(Meanings(b, at, d)[2 * i]) && KeyAt(Meanings(b, at, d), i) == ks[i]
    ensures Denotes(vs[i], Meanings(b, at, d)[2 * i + 1])
  {
    hide Meaning, Denotes;
    assert PairOk(b, at, ks, vs, d, i);
  }

  // ----- only what can be decoded is -----

  /** The tag at p is one that is decoded, or a COPY; strings are not too long. */
  ghost predicate Taken(b: seq<byte>, p: nat) {
    p < |b| && Scan(b, p).Some? ==> b[p] % 128 !in {36, 41, 44, 45, 46, 49, 50, 51, 62} && Short(b, p)
  }

  ghost predicate AllTaken(b: seq<byte>, p: nat, e: nat) {
    forall q: nat :: Path(b, p, q) && q < e ==> Taken(b, q)
  }

  lemma TakenFirst(b: seq<byte>, p: nat, e: nat)
    requires Scan(b, p).Some? && Taken(b, p) && AllTaken(b, Scan(b, p).value.1, e)
    ensures AllTaken(b, p, e)
  {
    hide Scan, Taken;
    forall q: nat | Path(b, p, q) && q < e
      ensures Taken(b, q)
    {
      PathTo(b, p, q);
    }
  }

  lemma {:induction false} TakenJoin(b: seq<byte>, p: nat, e1: nat, e: nat)
    requires Path(b, p, e1) && AllTaken(b, p, e1) && AllTaken(b, e1, e)
    ensures AllTaken(b, p, e)
    decreases |b| - p
  {
    hide Taken;
    PathSelf(b, p);
    if p != e1 {
      var q := Scan(b, p).value.1;
      PathOrder(b, q, e1);
      forall x: nat | Path(b, q, x) && x < e1
        ensures Taken(b, x)
      {
        assert Path(b, p, x);
      }
      TakenJoin(b, q, e1, e);
      hide Scan;
      TakenFirst(b, p, e);
    }
  }

  lemma NothingTaken(b: seq<byte>, p: nat)
    ensures AllTaken(b, p, p)
  {
    forall q: nat | Path(b, p, q)
      ensures q >= p
    {
      PathOrder(b, p, q);
    }
  }

  /** An item that reads no further item, if it is decoded. */
  lemma SingleTaken(b: seq<byte>, p: nat, e: nat)
    requires Parse(b, p, [Item]) == Some(e) && p < |b| && Scan(b, p).Some? && Single(b[p] % 128) && ValueAt(b, p, 0).Good?
    ensures ValueAt(b, p, 0).next == e && AllTaken(b, p, e)
  {
    NoChildren(b, p);
    NothingTaken(b, e);
    hide Parse, Path, AllTaken;
    if b[p] % 128 == 47 {
      DecodesCopy(b, p, 0);
      ReadsOther(b, p);
    } else if b[p] % 128 == 36 {
      NotDecoded(b, p, 0);
    } else if b[p] % 128 <= 37 || b[p] % 128 in {57, 58, 59} {
      ReadsValue(b, p);
      ScalarTaken(b, p);
    } else {
      TextTaken(b, p);
    }
    hide Scan, ValueAt;
    TakenFirst(b, p, e);
  }

  lemma ScalarTaken(b: seq<byte>, p: nat)
    requires p < |b| && Scan(b, p).Some? && (b[p] % 128 <= 35 || b[p] % 128 in {37, 57, 58, 59})
    ensures Taken(b, p) && (ValueAt(b, p, 0).Good? ==> ValueAt(b, p, 0).next == Scan(b, p).value.1)
  {
    ReadsValue(b, p);
    ValueScalar(b, p);
    hide Scan, Read, FromBytes, ValueAt;
  }

  lemma TextTaken(b: seq<byte>, p: nat)
    requires p < |b| && Scan(b, p).Some? && (b[p] % 128 in {38, 39} || b[p] % 128 >= 96)
    ensures ValueAt(b, p, 0).Good? ==> Taken(b, p) && ValueAt(b, p, 0).next == Scan(b, p).value.1
    ensures StringAt(b, p, 0).Good? ==> Taken(b, p) && StringAt(b, p, 0).next == Scan(b, p).value.1
  {
    ReadsValue(b, p);
    TagFirst(b, p, b[p] % 128, 0);
    hide Scan, Read, ValueAt, StringAt, ArrayAt, HashAt, CopyOffset;
  }

  ghost predicate ItemTaken(b: seq<byte>, p: nat, e: nat) {
    ValueAt(b, p, 0).Good? && ValueAt(b, p, 0).next == e && AllTaken(b, p, e)
  }

  lemma ItemTag(b: seq<byte>, p: nat, e: nat)
    requires Parse(b, p, [Item]) == Some(e) && ValueAt(b, p, 0).Good?
    ensures p < |b| && p < e <= |b| && Scan(b, p).Some?
    ensures Single(b[p] % 128) || Fronting(b[p] % 128) || Group(b[p] % 128)
    ensures Parse(b, Scan(b, p).value.1, Wants(Scan(b, p).value.0)) == Some(e)
  {
    ParseItem(b, p);
    ReadsThere(b, p);
    ReadsOther(b, p);
    hide Scan, Parse, ValueAt, Read;
    if b[p] % 128 in {41, 44, 45, 46, 50, 51} {
      NotDecoded(b, p, 0);
    }
  }

  /** If a well-formed item is decoded, then to its end, and all its tags are known. */
  lemma {:induction false} TakenItem(b: seq<byte>, p: nat, e: nat)
    requires Parse(b, p, [Item]) == Some(e) && ValueAt(b, p, 0).Good?
    ensures ItemTaken(b, p, e)
    decreases e - p, 2
  {
    ItemTag(b, p, e);
    hide Scan, Parse, ValueAt, AllTaken, ItemTaken, Single, Fronting, Group, Wants;
    if Single(b[p] % 128) {
      SingleTaken(b, p, e);
      ItemIs(b, p, e);
    } else if Fronting(b[p] % 128) {
      BehindTag(b, p, e);
      TakenItem(b, p + 1, e);
      BehindTaken(b, p, e);
    } else {
      TakenGroup(b, p, b[p] % 128, e);
    }
  }

  lemma ItemIs(b: seq<byte>, p: nat, e: nat)
    requires ValueAt(b, p, 0).Good? && ValueAt(b, p, 0).next == e && AllTaken(b, p, e)
    ensures ItemTaken(b, p, e)
  {
    hide ValueAt, AllTaken;
  }

  lemma BehindTag(b: seq<byte>, p: nat, e: nat)
    requires Parse(b, p, [Item]) == Some(e) && p < |b| && Fronting(b[p] % 128)
    ensures Parse(b, p + 1, [Item]) == Some(e) && ValueAt(b, p, 0) == ValueAt(b, p + 1, 0)
    ensures Scan(b, p).Some? && Scan(b, p).value.1 == p + 1 && Taken(b, p)
  {
    DecodesBehind(b, p);
    hide Scan, Parse, ValueAt, Taken;
    BehindScan(b, p);
    ParseItem(b, p);
  }

  lemma BehindScan(b: seq<byte>, p: nat)
    requires p < |b| && Fronting(b[p] % 128)
    ensures Scan(b, p).Some? && Scan(b, p).value.1 == p + 1 && Taken(b, p)
    ensures Wants(Scan(b, p).value.0) == [Item] && !Scan(b, p).value.0.Other?
  {
    ReadsOther(b, p);
    hide Scan, Read;
  }

  lemma BehindTaken(b: seq<byte>, p: nat, e: nat)
    requires Parse(b, p, [Item]) == Some(e) && p < |b| && Fronting(b[p] % 128) && ItemTaken(b, p + 1, e)
    ensures ItemTaken(b, p, e)
  {
    BehindTag(b, p, e);
    hide Scan, Parse, ValueAt, Taken, AllTaken;
    TakenFirst(b, p, e);
  }

  lemma {:induction false} TakenGroup(b: seq<byte>, p: nat, tag: nat, e: nat)
    requires p < |b| && p < e <= |b| && Scan(b, p).Some? && tag == b[p] % 128 && Group(tag) && ValueAt(b, p, 0).Good?
    requires Parse(b, Scan(b, p).value.1, Wants(Scan(b, p).value.0)) == Some(e)
    ensures ItemTaken(b, p, e)
    decreases e - p, 1
  {
    var q, n := GroupTag(b, p, tag, e);
    hide Scan, Parse, ValueAt, Taken, AllTaken, ItemTaken, Group, IsArray, IsHash, ValuesAt, PairsAt;
    if IsArray(tag) {
      TakenItems(b, q, n, e);
    } else {
      TakenPairs(b, q, n, e, map[]);
      PairsWere(b, q, n, e, map[]);
    }
    TakenFirst(b, p, e);
    ItemIs(b, p, e);
  }

  lemma GroupTag(b: seq<byte>, p: nat, tag: nat, e: nat) returns (q: nat, n: nat)
    requires p < |b| && p < e <= |b| && Scan(b, p).Some? && tag == b[p] % 128 && Group(tag) && ValueAt(b, p, 0).Good?
    requires Parse(b, Scan(b, p).value.1, Wants(Scan(b, p).value.0)) == Some(e)
    ensures q == Scan(b, p).value.1 && p < q <= |b| && Taken(b, p)
    ensures IsArray(tag) ==>
      Parse(b, q, Items(n)) == Some(e) && ValuesAt(b, q, n, 0).Good? && ValueAt(b, p, 0).next == ValuesAt(b, q, n, 0).next
    ensures !IsArray(tag) ==>
      Parse(b, q, Pairs(n)) == Some(e) && PairsAt(b, q, n, 0, map[]).Good? && ValueAt(b, p, 0).next == PairsAt(b, q, n, 0, map[]).next
  {
    SizeHere(b, p, tag);
    GroupValue(b, p, tag);
    NoTextThere(b, p);
    hide Scan, Parse, ValueAt, SizeOf, ValuesAt, PairsAt, Wants;
    q, n := Scan(b, p).value.1, Scan(b, p).value.0.count;
  }

  lemma NoTextThere(b: seq<byte>, p: nat)
    ensures Scan(b, p).Some? && Scan(b, p).value.0.Open? ==> !TextAt(b, p)
  {
    hide Scan;
  }

  lemma {:induction false} TakenItems(b: seq<byte>, p: nat, n: nat, e: nat)
    requires p <= |b| && Parse(b, p, Items(n)) == Some(e) && ValuesAt(b, p, n, 0).Good?
    ensures ValuesAt(b, p, n, 0).next == e && AllTaken(b, p, e)
    decreases e - p, 3
  {
    if n == 0 {
      NoItemsDone(b, p, 0);
      NothingTaken(b, p);
    } else {
      assert Items(n) == [Item] + Items(n - 1);
      var e1 := FrontTag(b, p, Item, Items(n - 1), e);
      ValuesGood(b, p, n);
      hide Scan, Parse, ValueAt, ValuesAt, AllTaken, ItemTaken, Items;
      TakenItem(b, p, e1);
      ItemWas(b, p, e1);
      TakenItems(b, e1, n - 1, e);
      TakenJoin(b, p, e1, e);
    }
  }

  lemma ItemWas(b: seq<byte>, p: nat, e: nat)
    requires ItemTaken(b, p, e)
    ensures ValueAt(b, p, 0).Good? && ValueAt(b, p, 0).next == e && AllTaken(b, p, e)
  {
    hide ValueAt, AllTaken;
  }

  lemma ValuesGood(b: seq<byte>, p: nat, n: nat)
    requires p <= |b| && n > 0 && ValuesAt(b, p, n, 0).Good?
    ensures ValueAt(b, p, 0).Good? && ValueAt(b, p, 0).next <= |b| && ValuesAt(b, ValueAt(b, p, 0).next, n - 1, 0).Good?
    ensures ValuesAt(b, p, n, 0).next == ValuesAt(b, ValueAt(b, p, 0).next, n - 1, 0).next
  {
    hide ValueAt;
  }

  lemma {:induction false} TakenPairs(b: seq<byte>, p: nat, n: nat, e: nat, m: map<seq<byte>, Value>)
    requires p <= |b| && Parse(b, p, Pairs(n)) == Some(e) && PairsAt(b, p, n, 0, m).Good?
    ensures PairsTaken(b, p, n, e, m)
    decreases e - p, 3
  {
    hide Scan, Parse, ValueAt, StringAt, PairsAt, AllTaken, ItemTaken, Pairs, PairsTaken;
    if n == 0 {
      NoPairs(b, p, m, 0);
      NothingTaken(b, p);
      PairsAre(b, p, n, e, m);
    } else {
      var e0, e1 := PairPlaces(b, p, n, e);
      var m1 := PairRead(b, p, n, e0, m);
      TakenItem(b, e0, e1);
      PairValue(b, p, n, e0, e1, m, m1);
      TakenPairs(b, e1, n - 1, e, m1);
      PairsJoined(b, p, n, e0, e1, e, m, m1);
    }
  }

  ghost predicate PairsTaken(b: seq<byte>, p: nat, n: nat, e: nat, m: map<seq<byte>, Value>) {
    p <= |b| && PairsAt(b, p, n, 0, m).Good? && PairsAt(b, p, n, 0, m).next == e && AllTaken(b, p, e)
  }

  lemma PairsWere(b: seq<byte>, p: nat, n: nat, e: nat, m: map<seq<byte>, Value>)
    requires PairsTaken(b, p, n, e, m)
    ensures p <= |b| && PairsAt(b, p, n, 0, m).Good? && PairsAt(b, p, n, 0, m).next == e && AllTaken(b, p, e)
  {
    hide AllTaken, PairsAt;
  }

  lemma PairsAre(b: seq<byte>, p: nat, n: nat, e: nat, m: map<seq<byte>, Value>)
    requires n == 0 && p <= |b| && p == e && AllTaken(b, p, e)
    ensures PairsTaken(b, p, n, e, m)
  {
    hide AllTaken;
  }

  /** Where the first pair of a hash is. */
  lemma PairPlaces(b: seq<byte>, p: nat, n: nat, e: nat) returns (e0: nat, e1: nat)
    requires p <= |b| && n > 0 && Parse(b, p, Pairs(n)) == Some(e)
    ensures p < e0 < e1 <= e && e1 <= |b| && Path(b, p, e0) && Path(b, e0, e1) && p < |b|
    ensures Parse(b, p, [Key]) == Some(e0) && Parse(b, e0, [Item]) == Some(e1) && Parse(b, e1, Pairs(n - 1)) == Some(e)
  {
    hide Scan, Parse, Path;
    assert Pairs(n) == [Key] + ([Item] + Pairs(n - 1));
    e0 := FrontTag(b, p, Key, [Item] + Pairs(n - 1), e);
    e1 := FrontTag(b, e0, Item, Pairs(n - 1), e);
  }

  /** What is read there. */
  lemma PairRead(b: seq<byte>, p: nat, n: nat, e0: nat, m: map<seq<byte>, Value>) returns (m1: map<seq<byte>, Value>)
    requires p < |b| && n > 0 && Parse(b, p, [Key]) == Some(e0) && PairsAt(b, p, n, 0, m).Good?
    ensures AllTaken(b, p, e0) && ValueAt(b, e0, 0).Good?
    ensures ValueAt(b, e0, 0).next <= |b| && PairsAt(b, p, n, 0, m) == PairsAt(b, ValueAt(b, e0, 0).next, n - 1, 0, m1)
  {
    hide Scan, Parse, ValueAt, StringAt, PairsAt, AllTaken;
    PairsGood(b, p, n, m);
    KeyTaken(b, p, e0);
    m1 := m[StringAt(b, p, 0).value := ValueAt(b, e0, 0).value];
  }

  lemma FrontTag(b: seq<byte>, p: nat, w: Want, rest: seq<Want>, e: nat) returns (e1: nat)
    requires Parse(b, p, [w] + rest) == Some(e) && p <= |b|
    ensures Parse(b, p, [w]) == Some(e1) && Parse(b, e1, rest) == Some(e) && p < e1 <= e && e1 <= |b| && Path(b, p, e1)
  {
    hide Scan;
    ParseSplit(b, p, [w], rest);
    e1 := Parse(b, p, [w]).value;
    Across(b, p, [w]);
  }

  lemma PairValue(b: seq<byte>, p: nat, n: nat, e0: nat, e1: nat, m: map<seq<byte>, Value>, m1: map<seq<byte>, Value>)
    requires n > 0 && p <= |b| && ItemTaken(b, e0, e1) && ValueAt(b, e0, 0).Good? && ValueAt(b, e0, 0).next <= |b|
    requires PairsAt(b, p, n, 0, m).Good? && PairsAt(b, p, n, 0, m) == PairsAt(b, ValueAt(b, e0, 0).next, n - 1, 0, m1)
    ensures e1 <= |b| && PairsAt(b, e1, n - 1, 0, m1).Good? && PairsAt(b, p, n, 0, m) == PairsAt(b, e1, n - 1, 0, m1)
  {
    hide ValueAt, PairsAt, AllTaken;
  }

  lemma PairsJoined(b: seq<byte>, p: nat, n: nat, e0: nat, e1: nat, e: nat, m: map<seq<byte>, Value>, m1: map<seq<byte>, Value>)
    requires n > 0 && p <= |b| && Path(b, p, e0) && Path(b, e0, e1) && AllTaken(b, p, e0) && ItemTaken(b, e0, e1)
    requires PairsTaken(b, e1, n - 1, e, m1) && PairsAt(b, p, n, 0, m) == PairsAt(b, e1, n - 1, 0, m1)
    ensures PairsTaken(b, p, n, e, m)
  {
    hide ValueAt, PairsAt, AllTaken, Path;
    TakenJoin(b, e0, e1, e);
    TakenJoin(b, p, e0, e);
  }

  lemma PairsGood(b: seq<byte>, p: nat, n: nat, m: map<seq<byte>, Value>)
    requires p <= |b| && n > 0 && PairsAt(b, p, n, 0, m).Good?
    ensures StringAt(b, p, 0).Good? && StringAt(b, p, 0).next <= |b|
    ensures var q := StringAt(b, p, 0).next;
            && ValueAt(b, q, 0).Good? && ValueAt(b, q, 0).next <= |b|
            && var m' := m[StringAt(b, p, 0).value := ValueAt(b, q, 0).value];
            PairsAt(b, p, n, 0, m) == PairsAt(b, ValueAt(b, q, 0).next, n - 1, 0, m')
  {
    hide ValueAt, StringAt;
  }

  lemma KeyTaken(b: seq<byte>, p: nat, e: nat)
    requires p < |b| && Parse(b, p, [Key]) == Some(e) && StringAt(b, p, 0).Good?
    ensures StringAt(b, p, 0).next == e && AllTaken(b, p, e)
  {
    ParseKey(b, p);
    StringTag(b, p);
    NothingTaken(b, e);
    if b[p] % 128 == 47 {
      DecodesCopy(b, p, 0);
      ReadsOther(b, p);
    } else {
      TextTaken(b, p);
    }
    hide Scan, Parse, StringAt, Read, AllTaken;
    TakenFirst(b, p, e);
  }

  /** Every COPY leads back to a string that is not too long. */
  ghost predicate PlainCopies(b: seq<byte>, p: nat, e: nat) {
    forall q: nat :: Path(b, p, q) && q < e ==> PlainCopy(b, q)
  }

  ghost predicate PlainCopy(b: seq<byte>, q: nat) {
    q < |b| && Scan(b, q).Some? && b[q] % 128 == 47 ==>
      var x := Read(b, q + 1).value.0; 0 < x < q && TextAt(b, x) && Short(b, x)
  }

  /** Where every COPY leads to a string, a well-formed item is decoded exactly when all its tags can be. */
  lemma DecodedExactly(b: seq<byte>, p: nat, e: nat)
    requires Parse(b, p, [Item]) == Some(e) && PlainCopies(b, p, e)
    ensures ValueAt(b, p, 0).Good? <==> AllDecodable(b, p, e)
  {
    hide Scan, Path, Parse, ValueAt, AllDecodable, PlainCopies, AllTaken;
    ItemEnds(b, p, e);
    if AllDecodable(b, p, e) {
      DecodesItem(b, p, e, e - p);
      DecodedValue(b, p, e, e - p);
    }
    if ValueAt(b, p, 0).Good? {
      TakenItem(b, p, e);
      ItemWas(b, p, e);
      TakenDecodable(b, p, e);
    }
  }

  lemma TakenDecodable(b: seq<byte>, p: nat, e: nat)
    requires AllTaken(b, p, e) && PlainCopies(b, p, e)
    ensures AllDecodable(b, p, e)
  {
    hide Path, Taken, PlainCopy, Decodable;
    forall q: nat | Path(b, p, q) && q < e
      ensures Decodable(b, q)
    {
      TakenPlain(b, q);
    }
  }

  lemma TakenPlain(b: seq<byte>, q: nat)
    ensures Taken(b, q) && PlainCopy(b, q) ==> Decodable(b, q)
  {
    hide Scan, Read;
  }

  // ----- an example -----

  /** An array of nine small numbers. */
  const NINE: seq<byte> := [0, 0x49, 1, 2, 3, 4, 5, 6, 7, 8, 9]

  lemma SmallValue(b: seq<byte>, p: nat)
    requires p < |b| && b[p] <= 15
    ensures ValueAt(b, p, 0) == Good(Int(b[p]), p + 1)
  {
    TagFirst(b, p, b[p], 0);
    hide ValueAt, StringAt, ArrayAt, HashAt, CopyOffset, SizeOf;
  }

  const NUMBERS: seq<Value> := [Int(1), Int(2), Int(3), Int(4), Int(5), Int(6), Int(7), Int(8), Int(9)]

  lemma NineAt(n: nat)
    requires 1 <= n <= 9
    ensures |NINE| == 11 && |NUMBERS| == 9 && NINE[11 - n] <= 15 && NUMBERS[9 - n] == Int(NINE[11 - n])
  {
  }

  /** The last n of them. */
  lemma {:induction false} NineValues(n: nat)
    requires n <= 9
    ensures |NINE| == 11 && |NUMBERS| == 9 && ValuesAt(NINE, 11 - n, n, 0) == Good(NUMBERS[9 - n..], 11)
  {
    hide ValueAt, NINE, NUMBERS;
    NineAt(if n == 0 then 1 else n);
    if n > 0 {
      SmallValue(NINE, 11 - n);
      NineValues(n - 1);
      assert NUMBERS[9 - n..] == [NUMBERS[9 - n]] + NUMBERS[9 - (n - 1)..];
    }
  }

  lemma NineSize()
    ensures SizeOf(NINE, 0x49, 2) == Good(9, 2)
  {
  }

  /** All nine are decoded. */
  lemma NineDecoded()
    ensures ValueAt(NINE, 1, 0) == Good(Array([Int(1), Int(2), Int(3), Int(4), Int(5), Int(6), Int(7), Int(8), Int(9)]), 11)
  {
    hide ValueAt, StringAt, ValuesAt, HashAt, CopyOffset, SizeOf, Scalar;
    TagFirst(NINE, 1, 0x49, 0);
    NineValues(9);
    NineSize();
  }
}
