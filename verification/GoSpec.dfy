/** What the Go codec decodes a body to: a total function on arbitrary bytes.  References, aliases and objects
    are outside this part of the model; Perl compatibility is off. */
module GoSpec {
  import opened Varint
  import opened VarintIO
  import opened Wire

  /** A Go value.  Strings and byte slices are byte sequences; floats are their bit patterns. */
  datatype Value =
    | Nil
    | Bool(truth: bool)
    | Int(i: iv)
    | Uint(u: uv)
    | Float(bits: nat)
    | Double(wide: nat)
    | Str(s: seq<byte>)
    | Bytes(s: seq<byte>)
    | Array(items: seq<Value>)
    | Dict(entries: map<seq<byte>, Value>)
    | Regexp(pattern: seq<byte>, modifiers: seq<byte>)

  datatype Error = Truncated | NestedCopy | BadOffset | BadSize | BadVarint | UnknownTag | NotString | Unsupported

  datatype Res<+T> = Good(value: T, next: nat) | Fail(error: Error)

  /** A byte slice has fewer bytes than this. */
  const MAX_LEN := 0x7fff_ffff_ffff_ffff

  /** Padding is skipped, with or without the track flag. */
  function Skip(b: seq<byte>, idx: nat): (p: nat)
    ensures idx <= p && (idx <= |b| ==> p <= |b|)
    ensures p < |b| ==> b[p] % HIGH != PAD
    ensures forall j :: idx <= j < p ==> j < |b| && b[j] % HIGH == PAD
    decreases |b| - idx
  {
    if idx < |b| && b[idx] % HIGH == PAD then Skip(b, idx + 1) else idx
  }

  function SmallInt(tag: nat): iv
    requires tag < VARINT
  {
    if tag >= 16 then tag - 32 else tag
  }

  /** A varint read as a signed word: one with the top bit set is kept as an unsigned number. */
  function Number(u: nat): Value
    requires u < WORD
  {
    if u > IV_MAX then Uint(u) else Int(u)
  }

  /** n bytes, the least significant first. */
  function FromBytes(b: seq<byte>, p: nat, n: nat): nat
    requires p + n <= |b|
    decreases n
  {
    if n == 0 then 0 else b[p] + 256 * FromBytes(b, p + 1, n - 1)
  }

  function Fixed(b: seq<byte>, q: nat, n: nat): (r: Res<nat>)
    ensures r.Good? ==> r.next == q + n <= |b|
  {
    if q + n > |b| then Fail(Truncated) else Good(FromBytes(b, q, n), q + n)
  }

  function Binary(b: seq<byte>, q: nat, n: nat): (r: Res<seq<byte>>)
    ensures r.Good? ==> r.next == q + n <= |b| && r.value == b[q..q + n]
  {
    if n > MAX_COUNT then Fail(BadSize)
    else if q + n > |b| then Fail(Truncated)
    else Good(b[q..q + n], q + n)
  }

  function LongBinary(b: seq<byte>, q: nat): (r: Res<seq<byte>>)
    ensures r.Good? ==> q < r.next <= |b|
  {
    match Read(b, q)
    case None => Fail(BadVarint)
    case Some((n, r)) => Binary(b, r, n)
  }

  /** The offset of a COPY whose tag ends at q. */
  function CopyOffset(b: seq<byte>, q: nat, c: nat): (r: Res<nat>)
    ensures r.Good? ==> r.value < q < r.next <= |b| && c == 0
  {
    if c > 0 then Fail(NestedCopy)
    else match Read(b, q)
      case None => Fail(BadVarint)
      case Some((o, r)) => if o >= q then Fail(BadOffset) else Good(o, r)
  }

  /** A string, where only a string may stand; c is the number of COPY tags being followed. */
  function StringAt(b: seq<byte>, idx: nat, c: nat): (r: Res<seq<byte>>)
    requires c <= 1
    ensures r.Good? ==> idx < r.next <= |b|
    decreases 1 - c, 1
  {
    var p := Skip(b, idx);
    if p >= |b| then Fail(Truncated) else StringOf(b, b[p] % HIGH, p + 1, c)
  }

  /** The string whose tag has just been read. */
  function StringOf(b: seq<byte>, tag: nat, q: nat, c: nat): (r: Res<seq<byte>>)
    requires c <= 1 && q <= |b|
    ensures r.Good? ==> q <= r.next <= |b|
    decreases 1 - c, 0
  {
    if tag == BINARY || tag == STR_UTF8 then LongBinary(b, q)
    else if tag >= SHORT_BINARY then
      var n := tag - SHORT_BINARY;
      if q + n > |b| then Fail(Truncated) else Good(b[q..q + n], q + n)
    else if tag == COPY then
      match CopyOffset(b, q, c)
      case Fail(e) => Fail(e)
      case Good(o, r) =>
        (match StringAt(b, o, c + 1)
         case Fail(e) => Fail(e)
         case Good(s, _) => Good(s, r))
    else Fail(NotString)
  }

  function AsInt(r: Option<(nat, nat)>): (v: Res<Value>)
    requires r.Some? ==> r.value.0 < WORD
  {
    match r
    case None => Fail(BadVarint)
    case Some((u, q)) => Good(Number(u), q)
  }

  function AsZigzag(r: Option<(nat, nat)>): (v: Res<Value>)
    requires r.Some? ==> r.value.0 < WORD
  {
    match r
    case None => Fail(BadVarint)
    case Some((u, q)) => Good(Int(GoUnzigzag(u)), q)
  }

  function Map<T, U>(r: Res<T>, f: T -> U): Res<U> {
    match r
    case Fail(e) => Fail(e)
    case Good(v, q) => Good(f(v), q)
  }

  /** The items that need no further decoding. */
  function Scalar(b: seq<byte>, tag: nat, q: nat): (r: Res<Value>)
    ensures r.Good? ==> q <= r.next && (q <= |b| ==> r.next <= |b|)
  {
    if tag < VARINT then Good(Int(SmallInt(tag)), q)
    else if tag == VARINT then AsInt(Read(b, q))
    else if tag == ZIGZAG then AsZigzag(Read(b, q))
    else if tag == FLOAT then Map(Fixed(b, q, 4), u => Float(u))
    else if tag == DOUBLE then Map(Fixed(b, q, 8), u => Double(u))
    else if tag == TRUE then Good(Bool(true), q)
    else if tag == FALSE then Good(Bool(false), q)
    else if tag == UNDEF || tag == CANONICAL_UNDEF then Good(Nil, q)
    else if tag == STR_UTF8 then Map(LongBinary(b, q), s => Str(s))
    else if tag == BINARY then Map(LongBinary(b, q), s => Bytes(s))
    else if tag >= SHORT_BINARY then Map(Binary(b, q, tag - SHORT_BINARY), s => Bytes(s))
    else if tag == REFP || tag == ALIAS || OBJECT <= tag <= OBJECTV || tag == OBJECT_FREEZE || tag == OBJECTV_FREEZE
    then Fail(Unsupported)
    else Fail(UnknownTag)
  }

  /** The size of a container, from its tag or from the varint behind it. */
  function SizeOf(b: seq<byte>, tag: nat, q: nat): (r: Res<nat>)
    ensures r.Good? ==> q <= r.next && (q <= |b| ==> r.next <= |b|)
  {
    if tag == ARRAY || tag == HASH then
      match Read(b, q)
      case None => Fail(BadVarint)
      case Some((n, r)) => Good(n, r)
    else Good(tag % 16, q)
  }

  predicate IsArray(tag: nat) { tag == ARRAY || ARRAYREF <= tag < HASHREF }
  predicate IsHash(tag: nat) { tag == HASH || HASHREF <= tag < SHORT_BINARY }

  /** The item at idx. */
  function ValueAt(b: seq<byte>, idx: nat, c: nat): (r: Res<Value>)
    requires c <= 1
    ensures r.Good? ==> idx < r.next <= |b|
    decreases 1 - c, |b| - idx, 2
  {
    var p := Skip(b, idx);
    if p >= |b| then Fail(Truncated) else ValueOf(b, b[p] % HIGH, p + 1, c)
  }

  /** The item whose tag has just been read. */
  function ValueOf(b: seq<byte>, tag: nat, q: nat, c: nat): (r: Res<Value>)
    requires c <= 1 && q <= |b|
    ensures r.Good? ==> q <= r.next <= |b|
    decreases 1 - c, |b| - q, 5
  {
    if IsArray(tag) then ArrayAt(b, q, tag, c)
    else if IsHash(tag) then HashAt(b, q, tag, c)
    else if tag == REFN || tag == WEAKEN then ValueAt(b, q, c)
    else if tag == COPY then
      match CopyOffset(b, q, c)
      case Fail(e) => Fail(e)
      case Good(o, r) =>
        (match ValueAt(b, o, c + 1)
         case Fail(e) => Fail(e)
         case Good(v, _) => Good(v, r))
    else if tag == REGEXP then
      match StringAt(b, q, c)
      case Fail(e) => Fail(e)
      case Good(s, r) =>
        (match StringAt(b, r, c)
         case Fail(e) => Fail(e)
         case Good(m, t) => Good(Regexp(s, m), t))
    else Scalar(b, tag, q)
  }

  /** The array whose tag has just been read. */
  function ArrayAt(b: seq<byte>, q: nat, tag: nat, c: nat): (r: Res<Value>)
    requires c <= 1 && q <= |b|
    ensures r.Good? ==> q <= r.next <= |b|
    decreases 1 - c, |b| - q, 4
  {
    match SizeOf(b, tag, q)
    case Fail(e) => Fail(e)
    case Good(n, r) =>
      if n > MAX_COUNT then Fail(BadSize)
      else if r + n > |b| then Fail(Truncated)
      else match ValuesAt(b, r, n, c)
        case Fail(e) => Fail(e)
        case Good(vs, t) => Good(Array(vs), t)
  }

  /** The hash whose tag has just been read. */
  function HashAt(b: seq<byte>, q: nat, tag: nat, c: nat): (r: Res<Value>)
    requires c <= 1 && q <= |b|
    ensures r.Good? ==> q <= r.next <= |b|
    decreases 1 - c, |b| - q, 4
  {
    match SizeOf(b, tag, q)
    case Fail(e) => Fail(e)
    case Good(n, r) =>
      if n > MAX_COUNT then Fail(BadSize)
      else if r + 2 * n > |b| then Fail(Truncated)
      else match PairsAt(b, r, n, c, map[])
        case Fail(e) => Fail(e)
        case Good(m, t) => Good(Dict(m), t)
  }

  /** n items in a row. */
  function ValuesAt(b: seq<byte>, idx: nat, n: nat, c: nat): (r: Res<seq<Value>>)
    requires c <= 1 && idx <= |b|
    ensures r.Good? ==> idx <= r.next <= |b| && |r.value| == n
    decreases 1 - c, |b| - idx, 3
  {
    if n == 0 then Good([], idx)
    else match ValueAt(b, idx, c)
      case Fail(e) => Fail(e)
      case Good(v, q) =>
        Map(ValuesAt(b, q, n - 1, c), vs => [v] + vs)
  }

  /** n pairs of key and value in a row, entered into m. */
  function PairsAt(b: seq<byte>, idx: nat, n: nat, c: nat, m: map<seq<byte>, Value>): (r: Res<map<seq<byte>, Value>>)
    requires c <= 1 && idx <= |b|
    ensures r.Good? ==> idx <= r.next <= |b|
    decreases 1 - c, |b| - idx, 3
  {
    if n == 0 then Good(m, idx)
    else match StringAt(b, idx, c)
      case Fail(e) => Fail(e)
      case Good(k, q) =>
        match ValueAt(b, q, c)
        case Fail(e) => Fail(e)
        case Good(v, r) => PairsAt(b, r, n - 1, c, m[k := v])
  }

  // ----- decoding looks only at what has been written -----

  /** b is the front of b'. */
  predicate Extends(b: seq<byte>, b': seq<byte>) {
    |b| <= |b'| && b'[..|b|] == b
  }

  lemma ExtendsAt(b: seq<byte>, b': seq<byte>, i: nat)
    requires Extends(b, b') && i < |b|
    ensures b'[i] == b[i]
  {
    assert b'[i] == b'[..|b|][i];
  }

  lemma ExtendsSlice(b: seq<byte>, b': seq<byte>, i: nat, j: nat)
    requires Extends(b, b') && i <= j <= |b|
    ensures b'[i..j] == b[i..j]
  {
    SliceSlice(b', 0, |b|, i, j);
    assert b'[0..|b|] == b'[..|b|];
  }

  lemma ReadExtends(b: seq<byte>, b': seq<byte>, p: nat)
    requires Extends(b, b') && Read(b, p).Some?
    ensures Read(b', p) == Read(b, p)
  {
    var q := Read(b, p).value.1;
    ExtendsSlice(b, b', p, q);
    ReadShift(b, p, b', p);
  }

  lemma {:induction false} SkipExtends(b: seq<byte>, b': seq<byte>, idx: nat)
    requires Extends(b, b') && Skip(b, idx) < |b|
    ensures Skip(b', idx) == Skip(b, idx) && b'[Skip(b, idx)] == b[Skip(b, idx)]
    decreases |b| - idx
  {
    ExtendsAt(b, b', idx);
    if b[idx] % HIGH == PAD {
      SkipExtends(b, b', idx + 1);
    }
  }

  lemma {:induction false} FromBytesExtends(b: seq<byte>, b': seq<byte>, p: nat, n: nat)
    requires Extends(b, b') && p + n <= |b|
    ensures FromBytes(b', p, n) == FromBytes(b, p, n)
    decreases n
  {
    if n > 0 {
      ExtendsAt(b, b', p);
      FromBytesExtends(b, b', p + 1, n - 1);
    }
  }

  lemma BinaryExtends(b: seq<byte>, b': seq<byte>, q: nat, n: nat)
    requires Extends(b, b')
    ensures Binary(b, q, n).Good? ==> Binary(b', q, n) == Binary(b, q, n)
    ensures LongBinary(b, q).Good? ==> LongBinary(b', q) == LongBinary(b, q)
  {
    if q + n <= |b| {
      ExtendsSlice(b, b', q, q + n);
    }
    if LongBinary(b, q).Good? {
      ReadExtends(b, b', q);
      var (k, r) := Read(b, q).value;
      ExtendsSlice(b, b', r, r + k);
    }
  }

  lemma CopyExtends(b: seq<byte>, b': seq<byte>, q: nat, c: nat)
    requires Extends(b, b') && CopyOffset(b, q, c).Good?
    ensures CopyOffset(b', q, c) == CopyOffset(b, q, c)
  {
    ReadExtends(b, b', q);
  }

  lemma {:induction false} StringExtends(b: seq<byte>, b': seq<byte>, idx: nat, c: nat)
    requires c <= 1 && Extends(b, b') && StringAt(b, idx, c).Good?
    ensures StringAt(b', idx, c) == StringAt(b, idx, c)
    decreases 1 - c
  {
    SkipExtends(b, b', idx);
    var p := Skip(b, idx);
    var tag, q := b[p] % HIGH, p + 1;
    if tag == COPY {
      CopyExtends(b, b', q, c);
      StringExtends(b, b', CopyOffset(b, q, c).value, c + 1);
    } else if tag >= SHORT_BINARY {
      var n := tag - SHORT_BINARY;
      ExtendsSlice(b, b', q, q + n);
    } else {
      BinaryExtends(b, b', q, 0);
    }
  }

  lemma ScalarExtends(b: seq<byte>, b': seq<byte>, tag: nat, q: nat)
    requires Extends(b, b') && Scalar(b, tag, q).Good?
    ensures Scalar(b', tag, q) == Scalar(b, tag, q)
  {
    if tag == VARINT || tag == ZIGZAG {
      ReadExtends(b, b', q);
    } else if tag == FLOAT {
      FromBytesExtends(b, b', q, 4);
    } else if tag == DOUBLE {
      FromBytesExtends(b, b', q, 8);
    } else if tag == STR_UTF8 || tag == BINARY || tag >= SHORT_BINARY {
      BinaryExtends(b, b', q, if tag >= SHORT_BINARY then tag - SHORT_BINARY else 0);
    }
  }

  lemma SizeExtends(b: seq<byte>, b': seq<byte>, tag: nat, q: nat)
    requires Extends(b, b') && SizeOf(b, tag, q).Good?
    ensures SizeOf(b', tag, q) == SizeOf(b, tag, q)
  {
    if tag == ARRAY || tag == HASH {
      ReadExtends(b, b', q);
    }
  }

  /** What has been decoded once decodes the same however much is appended. */
  lemma {:induction false} ValueExtends(b: seq<byte>, b': seq<byte>, idx: nat, c: nat)
    requires c <= 1 && Extends(b, b') && ValueAt(b, idx, c).Good?
    ensures ValueAt(b', idx, c) == ValueAt(b, idx, c)
    decreases 1 - c, |b| - idx, 0
  {
    hide Skip, Extends, ValueOf;
    ExtendsLonger(b, b');
    SkipExtends(b, b', idx);
    var p := Skip(b, idx);
    ValueOfExtends(b, b', b[p] % HIGH, p + 1, c);
  }

  lemma {:induction false} ValueOfExtends(b: seq<byte>, b': seq<byte>, tag: nat, q: nat, c: nat)
    requires c <= 1 && q <= |b| <= |b'| && Extends(b, b') && ValueOf(b, tag, q, c).Good?
    ensures ValueOf(b', tag, q, c) == ValueOf(b, tag, q, c)
    decreases 1 - c, |b| - q, 2
  {
    hide Scalar, SizeOf, StringAt, CopyOffset, Extends, ValueAt, ValuesAt, PairsAt;
    if IsArray(tag) {
      SizeExtends(b, b', tag, q);
      ValuesExtend(b, b', SizeOf(b, tag, q).next, SizeOf(b, tag, q).value, c);
    } else if IsHash(tag) {
      SizeExtends(b, b', tag, q);
      PairsExtend(b, b', SizeOf(b, tag, q).next, SizeOf(b, tag, q).value, c, map[]);
    } else if tag == REFN || tag == WEAKEN {
      ValueExtends(b, b', q, c);
    } else if tag == COPY {
      CopyExtends(b, b', q, c);
      ValueExtends(b, b', CopyOffset(b, q, c).value, c + 1);
    } else if tag == REGEXP {
      StringExtends(b, b', q, c);
      StringExtends(b, b', StringAt(b, q, c).next, c);
    } else {
      ScalarExtends(b, b', tag, q);
    }
  }

  lemma ExtendsLonger(b: seq<byte>, b': seq<byte>)
    requires Extends(b, b')
    ensures |b| <= |b'|
  {
  }

  lemma {:induction false} ValuesExtend(b: seq<byte>, b': seq<byte>, idx: nat, n: nat, c: nat)
    requires c <= 1 && idx <= |b| && Extends(b, b') && ValuesAt(b, idx, n, c).Good?
    ensures idx <= |b'| && ValuesAt(b', idx, n, c) == ValuesAt(b, idx, n, c)
    decreases 1 - c, |b| - idx, 1
  {
    hide ValueAt;
    if n > 0 {
      ValueExtends(b, b', idx, c);
      ValuesExtend(b, b', ValueAt(b, idx, c).next, n - 1, c);
    }
  }

  lemma {:induction false} PairsExtend(b: seq<byte>, b': seq<byte>, idx: nat, n: nat, c: nat, m: map<seq<byte>, Value>)
    requires c <= 1 && idx <= |b| && Extends(b, b') && PairsAt(b, idx, n, c, m).Good?
    ensures idx <= |b'| && PairsAt(b', idx, n, c, m) == PairsAt(b, idx, n, c, m)
    decreases 1 - c, |b| - idx, 1
  {
    hide ValueAt, StringAt;
    if n > 0 {
      StringExtends(b, b', idx, c);
      var k := StringAt(b, idx, c);
      ValueExtends(b, b', k.next, c);
      var v := ValueAt(b, k.next, c);
      PairsExtend(b, b', v.next, n - 1, c, m[k.value := v.value]);
    }
  }
}
