/** The Go encoder's fast path: it only appends, hash keys seen before become COPY tags, and what it writes
    decodes to the value it was given. */
module GoEncoder {
  import opened Varint
  import opened VarintIO
  import opened Wire
  import opened GoSpec

  /** The values the encoder is proved for: sizes that the decoder accepts. */
  ghost predicate Fits(v: Value) {
    match v
    case Float(bits) => bits < 0x1_0000_0000
    case Double(wide) => wide < WORD
    case Str(s) => |s| <= MAX_COUNT
    case Bytes(s) => |s| <= MAX_COUNT
    case Array(items) => |items| <= MAX_COUNT && forall k :: 0 <= k < |items| ==> Fits(items[k])
    case Dict(entries) => |entries| <= MAX_COUNT && forall k :: k in entries ==> |k| <= MAX_COUNT && Fits(entries[k])
    case Regexp(_, _) => false
    case _ => true
  }

  /** A number that fits a signed word comes back as one. */
  function Normal(v: Value): Value {
    match v
    case Uint(u) => Number(u)
    case Array(items) => Array(seq(|items|, k requires 0 <= k < |items| => Normal(items[k])))
    case Dict(entries) => Dict(map k | k in entries :: Normal(entries[k]))
    case _ => v
  }

  /** No unsigned number anywhere in it. */
  ghost predicate NoUint(v: Value) {
    match v
    case Uint(_) => false
    case Array(items) => forall k :: 0 <= k < |items| ==> NoUint(items[k])
    case Dict(entries) => forall k :: k in entries ==> NoUint(entries[k])
    case _ => true
  }

  /** w is v, but unsigned numbers that fit a signed word have become signed. */
  ghost predicate Comes(v: Value, w: Value) {
    match v
    case Uint(u) => w == if u <= 0x7fff_ffff_ffff_ffff then Int(u) else Uint(u)
    case Array(items) => w.Array? && |w.items| == |items| && forall k :: 0 <= k < |items| ==> Comes(items[k], w.items[k])
    case Dict(entries) =>
      w.Dict? && w.entries.Keys == entries.Keys && forall k :: k in entries ==> k in w.entries && Comes(entries[k], w.entries[k])
    case _ => w == v
  }

  lemma {:induction false} NormalComes(v: Value)
    ensures Comes(v, Normal(v))
    ensures NoUint(v) ==> Normal(v) == v
  {
    match v
    case Array(items) =>
      var ws := Normal(v).items;
      forall k | 0 <= k < |items|
        ensures Comes(items[k], ws[k]) && (NoUint(v) ==> ws[k] == items[k])
      {
        NormalComes(items[k]);
      }
    case Dict(entries) =>
      var ws := Normal(v).entries;
      forall k | k in entries
        ensures Comes(entries[k], ws[k]) && (NoUint(v) ==> ws[k] == entries[k])
      {
        NormalComes(entries[k]);
      }
      assert NoUint(v) ==> ws == entries;
    case _ =>
  }

  /** What was written comes back. */
  lemma WrittenBack(b: seq<byte>, b': seq<byte>, v: Value)
    requires Written(b, b', v)
    ensures |b'| <= MAX_LEN ==> ValueAt(b', |b|, 0).Good? && ValueAt(b', |b|, 0).next == |b'|
    ensures |b'| <= MAX_LEN ==> Comes(v, ValueAt(b', |b|, 0).value) && (NoUint(v) ==> ValueAt(b', |b|, 0).value == v)
  {
    hide ValueAt, Extends, Normal, Comes, NoUint;
    NormalComes(v);
  }

  /** The string table names only strings of the body, and those rightly. */
  ghost predicate Consistent(b: seq<byte>, table: map<seq<byte>, nat>) {
    |b| <= MAX_LEN ==> forall s :: s in table ==> table[s] < |b| && Names(b, table[s], s)
  }

  ghost predicate Names(b: seq<byte>, o: nat, s: seq<byte>) {
    StringAt(b, o, 1).Good? && StringAt(b, o, 1).value == s
  }

  /** What writing v behind b is to achieve. */
  ghost predicate Written(b: seq<byte>, b': seq<byte>, v: Value) {
    Extends(b, b') && |b| < |b'| && (|b'| <= MAX_LEN ==> ValueAt(b', |b|, 0) == Good(Normal(v), |b'|))
  }

  lemma ConsistentGrows(b: seq<byte>, b': seq<byte>, table: map<seq<byte>, nat>)
    requires Consistent(b, table) && Extends(b, b')
    ensures Consistent(b', table)
  {
    hide StringAt;
    if |b'| <= MAX_LEN {
      forall s | s in table
        ensures table[s] < |b'| && Names(b', table[s], s)
      {
        StringExtends(b, b', table[s], 1);
      }
    }
  }

  // ----- single items -----

  method AppendVarint(b: seq<byte>, n0: nat) returns (b': seq<byte>)
    ensures b' == b + Write(n0)
  {
    var n: nat := n0;
    b' := b;
    while n >= HIGH
      invariant b' + Write(n) == b + Write(n0)
    {
      b' := b' + [n % HIGH + HIGH];
      n := n / HIGH;
    }
    b' := b' + [n];
  }

  /** A tag written behind b is not padding, so that reading starts with it. */
  lemma TagAt(b: seq<byte>, b': seq<byte>, tag: byte)
    requires tag < HIGH && tag != PAD && Extends(b + [tag], b')
    ensures Skip(b', |b|) == |b| < |b'| && b'[|b|] == tag && Extends(b, b')
  {
    hide Extends;
    ExtendsLonger(b + [tag], b');
    ExtendsAt(b + [tag], b', |b|);
    ExtendsLess(b, [tag], b');
    NoSkip(b', |b|);
  }

  lemma NoSkip(b: seq<byte>, p: nat)
    requires p < |b| && b[p] % HIGH != PAD
    ensures Skip(b, p) == p
  {
  }

  lemma ExtendsLess(b: seq<byte>, s: seq<byte>, b': seq<byte>)
    requires Extends(b + s, b')
    ensures Extends(b, b')
  {
    assert b'[..|b|] == b'[..|b + s|][..|b|];
  }

  lemma ExtendsMore(b: seq<byte>, s: seq<byte>)
    ensures Extends(b, b + s)
  {
  }

  lemma ExtendsTrans(a: seq<byte>, b: seq<byte>, c: seq<byte>)
    requires Extends(a, b) && Extends(b, c)
    ensures Extends(a, c)
  {
    assert c[..|a|] == c[..|b|][..|a|];
  }

  /** A number written behind a tag reads back. */
  lemma NumberAt(b: seq<byte>, tag: byte, n: nat)
    requires n < WORD
    ensures Read(b + [tag] + Write(n), |b| + 1) == Some((n, |b| + 1 + |Write(n)|))
    ensures Extends(b + [tag], b + [tag] + Write(n))
  {
    var b' := b + [tag] + Write(n);
    assert b'[|b| + 1..|b| + 1 + |Write(n)|] == Write(n);
    ReadWrite(b', |b| + 1, n);
  }

  /** An item without children: its tag, and then what Scalar makes of the rest. */
  lemma ScalarWritten(b: seq<byte>, b': seq<byte>, tag: byte, v: Value)
    requires tag < HIGH && tag != PAD && Extends(b + [tag], b')
    requires !IsArray(tag) && !IsHash(tag) && tag != REFN && tag != WEAKEN && tag != COPY && tag != REGEXP
    requires Scalar(b', tag, |b| + 1) == Good(Normal(v), |b'|)
    ensures Written(b, b', v)
  {
    TagAt(b, b', tag);
  }

  method EncodeInt(b: seq<byte>, signed: bool, i: iv, ghost v: Value) returns (b': seq<byte>)
    requires if signed then v == Int(i) else v.Uint? && i == Signed(v.u)
    ensures Written(b, b', v)
    ensures 0 <= i <= 15 ==> b' == b + [i]
    ensures -16 <= i < 0 && signed ==> b' == b + [32 + i]
    ensures i > 15 ==> b' == b + [32] + Write(i)
    ensures i < -16 && signed ==> b' == b + [33] + Write(-2 * i - 1)
    ensures i < 0 && !signed ==> b' == b + [32] + Write(i + 0x1_0000_0000_0000_0000)
  {
    hide Written;
    ghost var tag: byte;
    if 0 <= i <= 15 {
      tag := i;
      b' := b + [i];
    } else if -16 <= i < 0 && signed {
      tag := i + 32;
      b' := b + [16 + (i + 16)];
    } else if i > 15 {
      tag := VARINT;
      NumberAt(b, VARINT, i);
      b' := AppendVarint(b + [VARINT], i);
    } else {
      var n: uv := i + WORD;
      if signed {
        tag := ZIGZAG;
        n := Zigzag(i);
        ZigzagBijection(i, 0);
        GoZigzag(i);
        NumberAt(b, ZIGZAG, n);
        b' := AppendVarint(b + [ZIGZAG], n);
      } else {
        tag := VARINT;
        NumberAt(b, VARINT, n);
        b' := AppendVarint(b + [VARINT], n);
      }
    }
    ScalarWritten(b, b', tag, v);
  }

  /** n bytes of a word, the least significant first. */
  function BytesOf(u: nat, n: nat): (s: seq<byte>)
    ensures |s| == n
  {
    if n == 0 then [] else [u % 256] + BytesOf(u / 256, n - 1)
  }

  function Pow256(n: nat): nat { if n == 0 then 1 else 256 * Pow256(n - 1) }

  lemma {:induction false} BytesBack(b: seq<byte>, p: nat, u: nat, n: nat)
    requires p + n <= |b| && b[p..p + n] == BytesOf(u, n) && u < Pow256(n)
    ensures FromBytes(b, p, n) == u
    decreases n
  {
    if n > 0 {
      assert b[p] == b[p..p + n][0];
      assert b[p + 1..p + n] == b[p..p + n][1..] == BytesOf(u / 256, n - 1);
      BytesBack(b, p + 1, u / 256, n - 1);
    }
  }

  method EncodeFloat(b: seq<byte>, u: nat) returns (b': seq<byte>)
    requires u < 0x1_0000_0000
    ensures Written(b, b', Float(u))
    ensures b' == b + [34, u % 256, u / 0x100 % 256, u / 0x1_0000 % 256, u / 0x100_0000 % 256]
  {
    b' := b + [FLOAT, u % 256, u / 0x100 % 256, u / 0x1_0000 % 256, u / 0x100_0000 % 256];
    FourOf(u);
    assert b'[|b| + 1..] == BytesOf(u, 4);
    assert b'[|b| + 1..|b| + 1 + 4] == b'[|b| + 1..];
    assert b'[..|b + [FLOAT]|] == b + [FLOAT];
    assert Pow256(2) == 0x1_0000 && Pow256(4) == 256 * (256 * Pow256(2));
    BytesBack(b', |b| + 1, u, 4);
    ScalarWritten(b, b', FLOAT, Float(u));
  }

  lemma FourOf(u: nat)
    ensures BytesOf(u, 4) == [u % 256, u / 0x100 % 256, u / 0x1_0000 % 256, u / 0x100_0000 % 256]
  {
    assert u / 256 / 256 == u / 0x1_0000 && u / 256 / 256 / 256 == u / 0x100_0000;
    assert BytesOf(u / 256 / 256 / 256, 1) == [u / 256 / 256 / 256 % 256];
    assert BytesOf(u / 256 / 256, 2) == [u / 256 / 256 % 256] + BytesOf(u / 256 / 256 / 256, 1);
    assert BytesOf(u / 256, 3) == [u / 256 % 256] + BytesOf(u / 256 / 256, 2);
  }

  method EncodeDouble(b: seq<byte>, u: nat) returns (b': seq<byte>)
    requires u < WORD
    ensures Written(b, b', Double(u))
    ensures b' == b + [35] + BytesOf(u, 8)
  {
    var h := u / 0x1_0000_0000;
    b' := b + [DOUBLE]
            + [u % 256, u / 0x100 % 256, u / 0x1_0000 % 256, u / 0x100_0000 % 256]
            + [h % 256, h / 0x100 % 256, h / 0x1_0000 % 256, h / 0x100_0000 % 256];
    FourOf(u);
    FourOf(h);
    EightOf(u);
    DoubleWritten(b, b', u);
  }

  lemma DoubleWritten(b: seq<byte>, b': seq<byte>, u: nat)
    requires u < WORD && b' == b + [DOUBLE] + BytesOf(u, 4) + BytesOf(u / 0x1_0000_0000, 4)
    requires BytesOf(u, 8) == BytesOf(u, 4) + BytesOf(u / 0x1_0000_0000, 4)
    ensures Written(b, b', Double(u))
  {
    hide BytesOf;
    assert b'[|b| + 1..|b| + 1 + 8] == BytesOf(u, 8);
    assert b'[..|b + [DOUBLE]|] == b + [DOUBLE];
    EightPower();
    BytesBack(b', |b| + 1, u, 8);
    hide Pow256, FromBytes;
    ScalarWritten(b, b', DOUBLE, Double(u));
  }

  lemma EightPower()
    ensures Pow256(8) == WORD
  {
    assert Pow256(2) == 0x1_0000;
    assert Pow256(4) == 256 * (256 * Pow256(2));
    assert Pow256(6) == 256 * (256 * Pow256(4));
    assert Pow256(8) == 256 * (256 * Pow256(6));
  }

  lemma EightOf(u: nat)
    ensures BytesOf(u, 8) == BytesOf(u, 4) + BytesOf(u / 0x1_0000_0000, 4)
  {
    var u1, u2, u3 := u / 256, u / 256 / 256, u / 256 / 256 / 256;
    var h := u3 / 256;
    assert h == u / 0x1_0000_0000;
    BytesHead(u, 8);
    BytesHead(u1, 7);
    BytesHead(u2, 6);
    BytesHead(u3, 5);
    FourOf(u);
    FourOf(h);
    hide BytesOf;
    var t := BytesOf(h, 4);
    assert [u % 256] + ([u1 % 256] + ([u2 % 256] + ([u3 % 256] + t))) == [u % 256, u1 % 256, u2 % 256, u3 % 256] + t;
  }

  lemma BytesHead(u: nat, n: nat)
    requires n > 0
    ensures BytesOf(u, n) == [u % 256] + BytesOf(u / 256, n - 1)
  {
  }

  // ----- strings -----

  /** A string with its length in front, behind b. */
  lemma LongAt(b: seq<byte>, tag: byte, s: seq<byte>)
    requires tag < HIGH && tag != PAD && |s| <= MAX_COUNT
    ensures var b' := b + [tag] + Write(|s|) + s;
            && Extends(b + [tag], b') && LongBinary(b', |b| + 1) == Good(s, |b'|)
  {
    var front := b + [tag] + Write(|s|);
    var b' := front + s;
    NumberAt(b, tag, |s|);
    ExtendsMore(front, s);
    ExtendsTrans(b + [tag], front, b');
    ReadExtends(front, b', |b| + 1);
    assert b'[|front|..|front| + |s|] == s;
  }

  lemma StringWritten(b: seq<byte>, s: seq<byte>)
    requires |s| <= MAX_COUNT
    ensures var b' := b + [STR_UTF8] + Write(|s|) + s;
            && Written(b, b', Str(s)) && StringAt(b', |b|, 0) == Good(s, |b'|) && Names(b', |b|, s)
  {
    var b' := b + [STR_UTF8] + Write(|s|) + s;
    LongAt(b, STR_UTF8, s);
    TagAt(b, b', STR_UTF8);
    hide LongBinary, Extends, Skip;
    ScalarWritten(b, b', STR_UTF8, Str(s));
  }

  /** A COPY of the string at o stands for that string. */
  lemma CopyWritten(b: seq<byte>, o: nat, s: seq<byte>)
    requires |b| <= MAX_LEN && o < |b| && Names(b, o, s)
    ensures var b' := b + [COPY] + Write(o);
            Extends(b, b') && StringAt(b', |b|, 0) == Good(s, |b'|)
  {
    var b' := b + [COPY] + Write(o);
    CopyNumber(b, o);
    TagAt(b, b', COPY);
    StringExtends(b, b', o, 1);
    hide CopyOffset, Extends, Skip, Write;
  }

  lemma CopyNumber(b: seq<byte>, o: nat)
    requires |b| <= MAX_LEN && o < |b|
    ensures var b' := b + [COPY] + Write(o); Extends(b + [COPY], b') && CopyOffset(b', |b| + 1, 0) == Good(o, |b'|)
  {
    NumberAt(b, COPY, o);
    hide Read, Write;
  }

  class Encoder {
    const disableDedup: bool
    var strTable: map<seq<byte>, nat>

    constructor (disableDedup: bool)
      ensures strTable == map[] && this.disableDedup == disableDedup
    {
      this.disableDedup := disableDedup;
      strTable := map[];
    }

    method EncodeString(b: seq<byte>, s: seq<byte>, isKeyOrClass: bool) returns (b': seq<byte>)
      requires Consistent(b, strTable) && |s| <= MAX_COUNT
      modifies this
      ensures Consistent(b', strTable) && Extends(b, b') && |b| < |b'|
      ensures |b'| <= MAX_LEN ==> StringAt(b', |b|, 0) == Good(s, |b'|)
      ensures !isKeyOrClass ==> Written(b, b', Str(s)) && strTable == old(strTable)
      ensures b' == if !disableDedup && isKeyOrClass && s in old(strTable) then b + [47] + Write(old(strTable)[s])
                    else b + [39] + Write(|s|) + s
      ensures strTable == if !disableDedup && isKeyOrClass && s !in old(strTable) then old(strTable)[s := |b|] else old(strTable)
    {
      hide StringAt, Written, Extends;
      ghost var table := strTable;
      if !disableDedup && isKeyOrClass {
        if s in strTable {
          var o := strTable[s];
          if |b| <= MAX_LEN {
            CopyWritten(b, o, s);
          } else {
            ExtendsMore(b, [COPY] + Write(o));
            assert b + ([COPY] + Write(o)) == b + [COPY] + Write(o);
          }
          b' := b + [COPY];
          b' := AppendVarint(b', o);
          ConsistentGrows(b, b', strTable);
          return;
        }
        strTable := strTable[s := |b|];
      }
      StringWritten(b, s);
      b' := b + [STR_UTF8];
      b' := AppendVarint(b', |s|);
      b' := b' + s;
      WrittenLonger(b, b', Str(s));
      ConsistentGrows(b, b', table);
      ConsistentMore(b', table, s, |b|);
    }

    method EncodeBytes(b: seq<byte>, s: seq<byte>) returns (b': seq<byte>)
      requires |s| <= MAX_COUNT
      ensures Written(b, b', Bytes(s))
      ensures b' == if |s| < 32 then b + [96 + |s|] + s else b + [38] + Write(|s|) + s
    {
      hide Extends;
      var l := |s|;
      if l < 32 {
        b' := b + [SHORT_BINARY + l] + s;
        ExtendsMore(b + [SHORT_BINARY + l], s);
        assert b'[|b| + 1..|b| + 1 + l] == s;
        ScalarWritten(b, b', SHORT_BINARY + l, Bytes(s));
      } else {
        LongAt(b, BINARY, s);
        b' := b + [BINARY];
        b' := AppendVarint(b', l);
        b' := b' + s;
        hide LongBinary;
        ScalarWritten(b, b', BINARY, Bytes(s));
      }
    }

    // ----- containers -----

    /** Writes v behind b.  The body is only appended to, the string table stays right, and what was written
        decodes to v. */
    method Encode(b: seq<byte>, v: Value) returns (b': seq<byte>)
      requires Consistent(b, strTable) && Fits(v)
      modifies this
      ensures Written(b, b', v) && Consistent(b', strTable)
      ensures v.Nil? ==> b' == b + [37]
      ensures v.Bool? ==> b' == b + [if v.truth then 59 else 58]
      ensures v.Array? ==> Extends(b + [43] + Write(|v.items|), b')
      ensures v.Dict? ==> Extends(b + [42] + Write(|v.entries|), b')
      ensures |b'| <= MAX_LEN && NoUint(v) ==> ValueAt(b', |b|, 0) == Good(v, |b'|)
      decreases v, 1
    {
      hide Written, Consistent, Extends, ValueAt, NoUint, Normal;
      NormalComes(v);
      match v {
      case Nil =>
        b' := b + [UNDEF];
        BareWritten(b, UNDEF, v);
      case Bool(truth) =>
        b' := if truth then b + [TRUE] else b + [FALSE];
        BareWritten(b, if truth then TRUE else FALSE, v);
      case Int(i) =>
        b' := EncodeInt(b, true, i, v);
      case Uint(u) =>
        b' := EncodeInt(b, false, Signed(u), v);
      case Float(bits) =>
        b' := EncodeFloat(b, bits);
      case Double(wide) =>
        b' := EncodeDouble(b, wide);
      case Str(s) =>
        b' := EncodeString(b, s, false);
        WrittenLonger(b, b', v);
        return;
      case Bytes(s) =>
        b' := EncodeBytes(b, s);
      case Array(items) =>
        b' := EncodeArray(b, items, v);
        WrittenLonger(b, b', v);
        return;
      case Dict(entries) =>
        b' := EncodeMap(b, entries, v);
        WrittenLonger(b, b', v);
        return;
      }
      WrittenLonger(b, b', v);
      ConsistentGrows(b, b', strTable);
    }

    method EncodeArray(b: seq<byte>, items: seq<Value>, ghost v: Value) returns (b': seq<byte>)
      requires Consistent(b, strTable) && v == Array(items) && Fits(v)
      modifies this
      ensures Written(b, b', v) && Consistent(b', strTable)
      ensures Extends(b + [43] + Write(|items|), b')
      decreases v, 0
    {
      hide Consistent, Extends, ValueAt, Written, Normal;
      var l := |items|;
      ghost var front := b + [ARRAY] + Write(l);
      NumberAt(b, ARRAY, l);
      b' := b + [ARRAY];
      b' := AppendVarint(b', l);
      FrontGrows(b, ARRAY, l, strTable);
      ValuesNone(front);
      var i := 0;
      while i < l
        invariant 0 <= i <= l && Extends(front, b') && |front| + i <= |b'| && Consistent(b', strTable)
        invariant |b'| <= MAX_LEN ==> ValuesAt(b', |front|, i, 0) == Good(Normals(items[..i]), |b'|)
      {
        var was := b';
        b' := Encode(b', items[i]);
        WrittenLonger(was, b', items[i]);
        ExtendsTrans(front, was, b');
        if |b'| <= MAX_LEN {
          ValuesMore(was, b', |front|, i, Normals(items[..i]), items[i]);
          NormalsMore(items, i);
        }
        i := i + 1;
      }
      assert items[..l] == items;
      ArrayWritten(b, b', items);
    }

    /** A key, which may become a COPY, and its value. */
    method EncodePair(b: seq<byte>, k: seq<byte>, v: Value, ghost front: seq<byte>, ghost i: nat, ghost m: map<seq<byte>, Value>)
      returns (b': seq<byte>)
      requires Consistent(b, strTable) && Fits(v) && |k| <= MAX_COUNT
      requires Extends(front, b) && |front| <= |b| && (|b| <= MAX_LEN ==> PairsAt(b, |front|, i, 0, map[]) == Good(m, |b|))
      modifies this
      ensures Consistent(b', strTable) && Extends(front, b') && |b| + 2 <= |b'|
      ensures |b'| <= MAX_LEN ==> PairsAt(b', |front|, i + 1, 0, map[]) == Good(m[k := Normal(v)], |b'|)
      decreases v, 2
    {
      hide Consistent, Extends, ValueAt, Written, Normal, StringAt, Fits, PairsAt;
      var mid := EncodeString(b, k, true);
      b' := Encode(mid, v);
      WrittenLonger(mid, b', v);
      ExtendsTrans(front, b, mid);
      ExtendsTrans(front, mid, b');
      if |b'| <= MAX_LEN {
        PairsMore(b, mid, b', |front|, i, m, k, v);
      }
    }

    /** The keys come in any order. */
    method EncodeMap(b: seq<byte>, entries: map<seq<byte>, Value>, ghost v: Value) returns (b': seq<byte>)
      requires Consistent(b, strTable) && v == Dict(entries) && Fits(v)
      modifies this
      ensures Written(b, b', v) && Consistent(b', strTable)
      ensures Extends(b + [42] + Write(|entries|), b')
      decreases v, 0
    {
      hide Consistent, Extends, ValueAt, Written, Normal, StringAt, PairsAt, Fits, Returned;
      FitsEntries(entries);
      ReturnedNone(entries);
      var l := |entries|;
      ghost var front := b + [HASH] + Write(l);
      NumberAt(b, HASH, l);
      b' := b + [HASH];
      b' := AppendVarint(b', l);
      FrontGrows(b, HASH, l, strTable);
      var left := entries.Keys;
      ghost var i, m := 0, map[];
      PairsNone(front);
      while left != {}
        invariant left <= entries.Keys && |left| + i == l && Returned(entries, left, m)
        invariant Extends(front, b') && |front| + 2 * i <= |b'| && Consistent(b', strTable)
        invariant |b'| <= MAX_LEN ==> PairsAt(b', |front|, i, 0, map[]) == Good(m, |b'|)
        decreases |left|
      {
        var k :| k in left;
        b' := EncodePair(b', k, entries[k], front, i, m);
        ReturnedMore(entries, left, m, k);
        m := m[k := Normal(entries[k])];
        left, i := left - {k}, i + 1;
      }
      NormalDict(entries, m);
      HashWritten(b, b', entries, m);
    }
  }

  lemma ConsistentMore(b: seq<byte>, table: map<seq<byte>, nat>, s: seq<byte>, o: nat)
    requires Consistent(b, table) && o < |b| && Names(b, o, s)
    ensures Consistent(b, table[s := o])
  {
    hide Names;
  }

  lemma WrittenLonger(b: seq<byte>, b': seq<byte>, v: Value)
    requires Written(b, b', v)
    ensures Extends(b, b') && |b| < |b'|
    ensures |b'| <= MAX_LEN ==> ValueAt(b', |b|, 0) == Good(Normal(v), |b'|)
  {
  }

  lemma BareWritten(b: seq<byte>, tag: byte, v: Value)
    requires (tag == UNDEF && v == Nil) || (tag == TRUE && v == Bool(true)) || (tag == FALSE && v == Bool(false))
    ensures Written(b, b + [tag], v)
  {
    ExtendsMore(b + [tag], []);
    assert b + [tag] + [] == b + [tag];
    ScalarWritten(b, b + [tag], tag, v);
  }

  /** The tag and count of a container. */
  lemma FrontGrows(b: seq<byte>, tag: byte, n: nat, table: map<seq<byte>, nat>)
    requires Consistent(b, table)
    ensures Consistent(b + [tag] + Write(n), table)
    ensures var front := b + [tag] + Write(n); Extends(front, front) && Extends(b, front)
  {
    var front := b + [tag] + Write(n);
    assert b + ([tag] + Write(n)) == front;
    ExtendsMore(b, [tag] + Write(n));
    ConsistentGrows(b, front, table);
  }

  function Normals(vs: seq<Value>): (ws: seq<Value>)
    ensures |ws| == |vs|
  {
    seq(|vs|, k requires 0 <= k < |vs| => Normal(vs[k]))
  }

  lemma NormalsMore(vs: seq<Value>, i: nat)
    requires i < |vs|
    ensures Normals(vs[..i + 1]) == Normals(vs[..i]) + [Normal(vs[i])]
  {
    hide Normal;
    assert vs[..i + 1] == vs[..i] + [vs[i]];
  }

  lemma ValuesNone(b: seq<byte>)
    ensures ValuesAt(b, |b|, 0, 0) == Good([], |b|)
  {
  }

  lemma PairsNone(b: seq<byte>)
    ensures PairsAt(b, |b|, 0, 0, map[]) == Good(map[], |b|)
  {
  }

  lemma ValuesStep(b: seq<byte>, p: nat, n: nat, ws: seq<Value>, q: nat)
    requires n > 0 && p <= |b| && ValueAt(b, p, 0).Good? && ValuesAt(b, ValueAt(b, p, 0).next, n - 1, 0) == Good(ws, q)
    ensures ValuesAt(b, p, n, 0) == Good([ValueAt(b, p, 0).value] + ws, q)
  {
    hide ValueAt;
  }

  /** Values in a row, and one more behind them. */
  lemma {:induction false} ValuesJoin(b: seq<byte>, p: nat, n: nat, vs: seq<Value>, q: nat, x: Value, e: nat)
    requires p <= q <= |b| && ValuesAt(b, p, n, 0) == Good(vs, q) && ValueAt(b, q, 0) == Good(x, e)
    ensures ValuesAt(b, p, n + 1, 0) == Good(vs + [x], e)
    decreases n
  {
    hide ValueAt;
    if n == 0 {
      ValuesStep(b, p, 1, [], e);
      assert [x] + [] == vs + [x];
    } else {
      var v, r := ValueAt(b, p, 0).value, ValueAt(b, p, 0).next;
      var ws := ValuesAt(b, r, n - 1, 0).value;
      assert vs == [v] + ws;
      ValuesJoin(b, r, n - 1, ws, q, x, e);
      ValuesStep(b, p, n + 1, ws + [x], e);
      assert [v] + (ws + [x]) == vs + [x];
    }
  }

  lemma ValuesMore(was: seq<byte>, b: seq<byte>, p: nat, n: nat, vs: seq<Value>, v: Value)
    requires Extends(was, b) && p <= |was| && ValuesAt(was, p, n, 0) == Good(vs, |was|)
    requires ValueAt(b, |was|, 0) == Good(Normal(v), |b|)
    ensures p <= |b| && ValuesAt(b, p, n + 1, 0) == Good(vs + [Normal(v)], |b|)
  {
    hide Normal;
    ExtendsLonger(was, b);
    ValuesExtend(was, b, p, n, 0);
    ValuesJoin(b, p, n, vs, |was|, Normal(v), |b|);
  }

  lemma {:induction false} PairsJoin(b: seq<byte>, p: nat, n: nat, m0: map<seq<byte>, Value>, m: map<seq<byte>, Value>, q: nat)
    requires p <= q <= |b| && PairsAt(b, p, n, 0, m0) == Good(m, q)
    ensures StringAt(b, q, 0).Good? && ValueAt(b, StringAt(b, q, 0).next, 0).Good? ==>
      var k, v := StringAt(b, q, 0), ValueAt(b, StringAt(b, q, 0).next, 0);
      PairsAt(b, p, n + 1, 0, m0) == Good(m[k.value := v.value], v.next)
    decreases n
  {
    hide ValueAt, StringAt;
    if n == 0 {
      var k := StringAt(b, q, 0);
      if k.Good? && ValueAt(b, k.next, 0).Good? {
        var v := ValueAt(b, k.next, 0);
        assert PairsAt(b, v.next, 0, 0, m[k.value := v.value]) == Good(m[k.value := v.value], v.next);
      }
    } else {
      var k := StringAt(b, p, 0);
      var v := ValueAt(b, k.next, 0);
      PairsJoin(b, v.next, n - 1, m0[k.value := v.value], m, q);
    }
  }

  lemma PairsMore(was: seq<byte>, mid: seq<byte>, b: seq<byte>, p: nat, n: nat, m: map<seq<byte>, Value>, k: seq<byte>, v: Value)
    requires Extends(was, mid) && Extends(mid, b) && p <= |was| && PairsAt(was, p, n, 0, map[]) == Good(m, |was|)
    requires StringAt(mid, |was|, 0) == Good(k, |mid|) && ValueAt(b, |mid|, 0) == Good(Normal(v), |b|)
    ensures p <= |b| && PairsAt(b, p, n + 1, 0, map[]) == Good(m[k := Normal(v)], |b|)
  {
    hide Normal;
    ExtendsTrans(was, mid, b);
    ExtendsLonger(was, b);
    PairsExtend(was, b, p, n, 0, map[]);
    StringExtends(mid, b, |was|, 0);
    PairsJoin(b, p, n, map[], m, |was|);
  }

  lemma ArrayWritten(b: seq<byte>, b': seq<byte>, items: seq<Value>)
    requires |items| <= MAX_COUNT && Extends(b + [ARRAY] + Write(|items|), b')
    requires |b + [ARRAY] + Write(|items|)| + |items| <= |b'|
    requires |b'| <= MAX_LEN ==> ValuesAt(b', |b + [ARRAY] + Write(|items|)|, |items|, 0) == Good(Normals(items), |b'|)
    ensures Written(b, b', Array(items))
  {
    hide Extends, Skip, Read, ValueAt, ValuesAt, Normal;
    var n := |items|;
    FrontRead(b, ARRAY, n, b');
    assert Normal(Array(items)) == Array(Normals(items)) by { NormalArray(items); }
    if |b'| <= MAX_LEN {
      ArrayRead(b', |b|, n, |b + [ARRAY] + Write(n)|, Normals(items));
    }
  }

  lemma NormalArray(items: seq<Value>)
    ensures Normal(Array(items)) == Array(Normals(items))
  {
  }

  /** The tag and count of a container, read back. */
  lemma FrontRead(b: seq<byte>, tag: byte, n: nat, b': seq<byte>)
    requires (tag == ARRAY || tag == HASH) && n <= MAX_COUNT && Extends(b + [tag] + Write(n), b')
    ensures Extends(b, b') && |b| < |b'| && Skip(b', |b|) == |b| && b'[|b|] == tag
    ensures SizeOf(b', tag, |b| + 1) == Good(n, |b + [tag] + Write(n)|)
  {
    hide Extends, Skip;
    var front := b + [tag] + Write(n);
    NumberAt(b, tag, n);
    ExtendsTrans(b + [tag], front, b');
    ReadExtends(front, b', |b| + 1);
    TagAt(b, b', tag);
  }

  lemma ArrayRead(b: seq<byte>, p: nat, n: nat, r: nat, vs: seq<Value>)
    requires p < r <= |b| && Skip(b, p) == p && b[p] == ARRAY && n <= MAX_COUNT && r + n <= |b|
    requires SizeOf(b, ARRAY, p + 1) == Good(n, r) && ValuesAt(b, r, n, 0) == Good(vs, |b|)
    ensures ValueAt(b, p, 0) == Good(Array(vs), |b|)
  {
    hide Skip, SizeOf, ValuesAt;
    assert ValueOf(b, ARRAY, p + 1, 0) == ArrayAt(b, p + 1, ARRAY, 0);
  }

  lemma HashRead(b: seq<byte>, p: nat, n: nat, r: nat, m: map<seq<byte>, Value>)
    requires p < r <= |b| && Skip(b, p) == p && b[p] == HASH && n <= MAX_COUNT && r + 2 * n <= |b|
    requires SizeOf(b, HASH, p + 1) == Good(n, r) && PairsAt(b, r, n, 0, map[]) == Good(m, |b|)
    ensures ValueAt(b, p, 0) == Good(Dict(m), |b|)
  {
    hide Skip, SizeOf, PairsAt;
    assert ValueOf(b, HASH, p + 1, 0) == HashAt(b, p + 1, HASH, 0);
  }

  lemma HashWritten(b: seq<byte>, b': seq<byte>, entries: map<seq<byte>, Value>, m: map<seq<byte>, Value>)
    requires |entries| <= MAX_COUNT && Extends(b + [HASH] + Write(|entries|), b') && Normal(Dict(entries)) == Dict(m)
    requires |b + [HASH] + Write(|entries|)| + 2 * |entries| <= |b'|
    requires |b'| <= MAX_LEN ==> PairsAt(b', |b + [HASH] + Write(|entries|)|, |entries|, 0, map[]) == Good(m, |b'|)
    ensures Written(b, b', Dict(entries))
  {
    hide Extends, Skip, Read, ValueAt, PairsAt, Normal;
    var n := |entries|;
    FrontRead(b, HASH, n, b');
    if |b'| <= MAX_LEN {
      HashRead(b', |b|, n, |b + [HASH] + Write(n)|, m);
    }
  }

  /** The entries written so far, as they come back. */
  ghost predicate Returned(entries: map<seq<byte>, Value>, left: set<seq<byte>>, m: map<seq<byte>, Value>) {
    m.Keys == entries.Keys - left && forall k :: k in m ==> m[k] == Normal(entries[k])
  }

  lemma ReturnedNone(entries: map<seq<byte>, Value>)
    ensures Returned(entries, entries.Keys, map[])
  {
  }

  lemma ReturnedMore(entries: map<seq<byte>, Value>, left: set<seq<byte>>, m: map<seq<byte>, Value>, k: seq<byte>)
    requires Returned(entries, left, m) && k in left && k in entries
    ensures Returned(entries, left - {k}, m[k := Normal(entries[k])])
  {
    hide Normal;
  }

  lemma FitsEntries(entries: map<seq<byte>, Value>)
    requires Fits(Dict(entries))
    ensures |entries| <= MAX_COUNT && forall k :: k in entries ==> |k| <= MAX_COUNT && Fits(entries[k])
  {
  }

  lemma NormalDict(entries: map<seq<byte>, Value>, m: map<seq<byte>, Value>)
    requires Returned(entries, {}, m)
    ensures Normal(Dict(entries)) == Dict(m)
  {
    assert (map k | k in entries :: Normal(entries[k])) == m;
  }
}
