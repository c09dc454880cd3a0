/** The Go decoder for documents of unknown structure.  It ends on every input, although COPY jumps back. */
module GoDecoder {
  import opened Varint
  import opened VarintIO
  import opened Wire
  import opened GoSpec

  /** A varint as a signed machine integer, with the number of bytes it takes. */
  method Varintdecode(b: seq<byte>, from: nat) returns (ok: bool, n: iv, sz: nat)
    requires from <= |b|
    ensures ok <==> Read(b, from).Some?
    ensures ok ==> Read(b, from).value.1 == from + sz && n == Signed(Read(b, from).value.0)
  {
    hide Read, Runaway, Prefix, OrAbove, Continued, Scaled;
    NoDigits(b, from);
    var u, s, i := 0, 0, 0;
    while from + i < |b|
      invariant 0 <= i < MAX_BYTES && s == 7 * i && from + i <= |b|
      invariant Continued(b, from, i) && u == Prefix(b, from, i)
    {
      var x := b[from + i];
      if x < HIGH {
        ReadEnds(b, from, i);
        return true, Signed(OrAbove(u, i, x)), i + 1;
      }
      PrefixNext(b, from, i);
      if s + 7 > 63 {
        ReadFails(b, from, i + 1);
        return false, 0, i + 1;
      }
      OrNext(b, from, i);
      u := OrAbove(u, i, x - HIGH);
      s, i := s + 7, i + 1;
    }
    ReadFails(b, from, i);
    return false, 0, |b|;
  }

  class Decoder {
    var copyDepth: int

    constructor ()
      ensures copyDepth == 0
    {
      copyDepth := 0;
    }

    /** The item at idx, or an error; the copy depth is as before. */
    method Decode(b: seq<byte>, idx0: int) returns (r: Res<Value>)
      requires 0 <= copyDepth <= 1 && |b| <= MAX_LEN
      modifies this
      ensures copyDepth == old(copyDepth)
      ensures r == if idx0 < 0 then Fail(Truncated) else ValueAt(b, idx0, copyDepth)
      ensures r.Good? ==> idx0 < r.next <= |b|
      decreases 1 - copyDepth, |b| - idx0, 1
    {
      hide Scalar, SizeOf, CopyOffset, StringAt;
      var idx := idx0;
      if idx < 0 || idx >= |b| {
        return Fail(Truncated);
      }
      while b[idx] % HIGH == PAD
        invariant idx0 <= idx < |b| && Skip(b, idx) == Skip(b, idx0)
        decreases |b| - idx
      {
        idx := idx + 1;
        if idx >= |b| {
          return Fail(Truncated);
        }
      }
      var tag := b[idx] % HIGH;
      idx := idx + 1;
      if IsArray(tag) {
        r := DecodeArray(b, idx, tag);
      } else if IsHash(tag) {
        r := DecodeHash(b, idx, tag);
      } else if tag == COPY {
        r := DecodeCopy(b, idx);
      } else if tag == REFN || tag == WEAKEN {
        r := Decode(b, idx);
      } else if tag == REGEXP {
        var pattern := DecodeStringish(b, idx);
        if pattern.Fail? {
          return Fail(pattern.error);
        }
        var modifiers := DecodeStringish(b, pattern.next);
        r := Map(modifiers, m => Regexp(pattern.value, m));
      } else {
        r := DecodeScalar(b, idx, tag);
      }
    }

    /** Everything that is not a container and not a link. */
    method DecodeScalar(b: seq<byte>, idx: nat, tag: nat) returns (r: Res<Value>)
      requires idx <= |b| && tag < HIGH
      ensures r == Scalar(b, tag, idx)
    {
      if tag < VARINT {
        r := Good(Int(if tag >= 16 then tag - 32 else tag), idx);
      } else if tag == VARINT {
        var ok, n, sz := Varintdecode(b, idx);
        if !ok {
          return Fail(BadVarint);
        }
        r := Good(if n < 0 then Uint(n + WORD) else Int(n), idx + sz);
      } else if tag == ZIGZAG {
        var ok, n, sz := Varintdecode(b, idx);
        if !ok {
          return Fail(BadVarint);
        }
        var u := if n < 0 then n + WORD else n;
        r := Good(Int(-(1 + u / 2)), idx + sz);
      } else if tag == FLOAT {
        if idx + 3 >= |b| {
          return Fail(Truncated);
        }
        FourBytes(b, idx);
        var bits := Little(b[idx], b[idx + 1], b[idx + 2], b[idx + 3]);
        r := Good(Float(bits), idx + 4);
      } else if tag == DOUBLE {
        if idx + 7 >= |b| {
          return Fail(Truncated);
        }
        EightBytes(b, idx);
        var low := Little(b[idx], b[idx + 1], b[idx + 2], b[idx + 3]);
        var high := Little(b[idx + 4], b[idx + 5], b[idx + 6], b[idx + 7]);
        r := Good(Double(low + high * 0x1_0000_0000), idx + 8);
      } else if tag == TRUE {
        r := Good(Bool(true), idx);
      } else if tag == FALSE {
        r := Good(Bool(false), idx);
      } else if tag == UNDEF || tag == CANONICAL_UNDEF {
        r := Good(Nil, idx);
      } else if tag == STR_UTF8 || tag == BINARY {
        var ok, n, sz := Varintdecode(b, idx);
        if !ok {
          return Fail(BadVarint);
        }
        var s := DecodeBinary(b, idx + sz, n);
        r := Map(s, x => if tag == STR_UTF8 then Str(x) else Bytes(x));
      } else if tag >= SHORT_BINARY {
        var s := DecodeBinary(b, idx, tag - SHORT_BINARY);
        r := Map(s, x => Bytes(x));
      } else {
        r := Fail(if tag == REFP || tag == ALIAS || OBJECT <= tag <= OBJECTV || tag == OBJECT_FREEZE || tag == OBJECTV_FREEZE
                  then Unsupported else UnknownTag);
      }
    }

    method DecodeBinary(b: seq<byte>, idx: nat, ln: iv) returns (r: Res<seq<byte>>)
      requires idx <= |b|
      ensures r == Binary(b, idx, if ln < 0 then ln + WORD else ln)
    {
      if ln < 0 || ln > MAX_COUNT {
        return Fail(BadSize);
      }
      if idx + ln > |b| {
        return Fail(Truncated);
      }
      r := Good(b[idx..idx + ln], idx + ln);
    }

    /** Where only a string may stand. */
    method DecodeStringish(b: seq<byte>, idx0: nat) returns (r: Res<seq<byte>>)
      requires 0 <= copyDepth <= 1 && |b| <= MAX_LEN
      modifies this
      ensures copyDepth == old(copyDepth) && r == StringAt(b, idx0, copyDepth)
      decreases 1 - copyDepth, |b| - idx0, 0
    {
      hide Read, Binary, CopyOffset;
      var idx: nat := idx0;
      if idx >= |b| {
        return Fail(Truncated);
      }
      while b[idx] % HIGH == PAD
        invariant idx0 <= idx < |b| && Skip(b, idx) == Skip(b, idx0)
        decreases |b| - idx
      {
        idx := idx + 1;
        if idx >= |b| {
          return Fail(Truncated);
        }
      }
      var tag := b[idx] % HIGH;
      idx := idx + 1;
      if tag == BINARY || tag == STR_UTF8 {
        var ok, ln, sz := Varintdecode(b, idx);
        if !ok {
          return Fail(BadVarint);
        }
        r := DecodeBinary(b, idx + sz, ln);
      } else if tag >= SHORT_BINARY {
        var ln := tag - SHORT_BINARY;
        if idx + ln > |b| {
          return Fail(Truncated);
        }
        r := Good(b[idx..idx + ln], idx + ln);
      } else if tag == COPY {
        var o := CopyTarget(b, idx);
        if o.Fail? {
          return Fail(o.error);
        }
        copyDepth := copyDepth + 1;
        var s := DecodeStringish(b, o.value);
        copyDepth := copyDepth - 1;
        if s.Fail? {
          return s;
        }
        r := Good(s.value, o.next);
      } else {
        r := Fail(NotString);
      }
    }

    /** The offset of a COPY: not inside another COPY, and before the COPY itself. */
    method CopyTarget(b: seq<byte>, idx: nat) returns (r: Res<nat>)
      requires idx <= |b| <= MAX_LEN && 0 <= copyDepth <= 1
      ensures r == CopyOffset(b, idx, copyDepth)
    {
      if copyDepth > 0 {
        return Fail(NestedCopy);
      }
      var ok, offs, sz := Varintdecode(b, idx);
      if !ok {
        return Fail(BadVarint);
      }
      if offs < 0 || offs >= idx {
        return Fail(BadOffset);
      }
      r := Good(offs, idx + sz);
    }

    method DecodeCopy(b: seq<byte>, idx: nat) returns (r: Res<Value>)
      requires idx <= |b| <= MAX_LEN && 0 <= copyDepth <= 1
      modifies this
      ensures copyDepth == old(copyDepth)
      ensures r == match CopyOffset(b, idx, copyDepth) {
        case Fail(e) => Fail(e)
        case Good(o, q) => match ValueAt(b, o, copyDepth + 1) {
          case Fail(e) => Fail(e)
          case Good(v, _) => Good(v, q)
        }
      }
      decreases 1 - copyDepth, |b| - idx, 0
    {
      hide Scalar, SizeOf, StringAt;
      var o := CopyTarget(b, idx);
      if o.Fail? {
        return Fail(o.error);
      }
      copyDepth := copyDepth + 1;
      var v := Decode(b, o.value);
      copyDepth := copyDepth - 1;
      if v.Fail? {
        return v;
      }
      r := Good(v.value, o.next);
    }

    /** How many elements follow: in the tag, or in a varint behind it. */
    method Size(b: seq<byte>, idx: nat, tag: nat) returns (r: Res<nat>)
      requires idx <= |b|
      ensures r == match SizeOf(b, tag, idx) {
        case Fail(e) => Fail(e)
        case Good(n, q) => if n > MAX_COUNT then Fail(BadSize) else Good(n, q)
      }
    {
      if tag != ARRAY && tag != HASH {
        return Good(tag % 16, idx);
      }
      var ok, ln, sz := Varintdecode(b, idx);
      if !ok {
        return Fail(BadVarint);
      }
      if ln < 0 || ln > MAX_COUNT {
        return Fail(BadSize);
      }
      r := Good(ln, idx + sz);
    }

    method DecodeArray(b: seq<byte>, idx0: nat, tag: nat) returns (r: Res<Value>)
      requires 0 <= copyDepth <= 1 && idx0 <= |b| <= MAX_LEN
      modifies this
      ensures copyDepth == old(copyDepth)
      ensures r == ArrayAt(b, idx0, tag, copyDepth)
      decreases 1 - copyDepth, |b| - idx0, 2
    {
      hide Scalar, SizeOf, CopyOffset, StringAt, ValueAt;
      var size := Size(b, idx0, tag);
      if size.Fail? {
        return Fail(size.error);
      }
      var idx, ln := size.next, size.value;
      if idx + ln > |b| {
        return Fail(Truncated);
      }
      var slice := [];
      PrependNothing(ValuesAt(b, idx, ln, copyDepth));
      ghost var all := ValuesAt(b, idx, ln, copyDepth);
      var i := 0;
      while i < ln
        invariant 0 <= i == |slice| <= ln && size.next <= idx <= |b| && copyDepth == old(copyDepth)
        invariant all == Prepend(slice, ValuesAt(b, idx, ln - i, copyDepth))
      {
        var v := Decode(b, idx);
        if v.Fail? {
          return Fail(v.error);
        }
        PrependMore(slice, v.value, ValuesAt(b, v.next, ln - i - 1, copyDepth));
        slice, idx, i := slice + [v.value], v.next, i + 1;
      }
      assert slice + [] == slice;
      r := Good(Array(slice), idx);
    }

    method DecodeHash(b: seq<byte>, idx0: nat, tag: nat) returns (r: Res<Value>)
      requires 0 <= copyDepth <= 1 && idx0 <= |b| <= MAX_LEN
      modifies this
      ensures copyDepth == old(copyDepth)
      ensures r == HashAt(b, idx0, tag, copyDepth)
      decreases 1 - copyDepth, |b| - idx0, 2
    {
      hide Scalar, SizeOf, CopyOffset, StringAt, ValueAt;
      var size := Size(b, idx0, tag);
      if size.Fail? {
        return Fail(size.error);
      }
      var idx, ln := size.next, size.value;
      if idx + 2 * ln > |b| {
        return Fail(Truncated);
      }
      var hash: map<seq<byte>, Value> := map[];
      ghost var all := PairsAt(b, idx, ln, copyDepth, hash);
      var i := 0;
      while i < ln
        invariant 0 <= i <= ln && size.next <= idx <= |b| && copyDepth == old(copyDepth)
        invariant all == PairsAt(b, idx, ln - i, copyDepth, hash)
      {
        var key := DecodeStringish(b, idx);
        if key.Fail? {
          return Fail(key.error);
        }
        var value := Decode(b, key.next);
        if value.Fail? {
          return Fail(value.error);
        }
        hash, idx, i := hash[key.value := value.value], value.next, i + 1;
      }
      r := Good(Dict(hash), idx);
    }
  }

  function Prepend(vs: seq<Value>, r: Res<seq<Value>>): Res<seq<Value>> {
    Map(r, ws => vs + ws)
  }

  lemma PrependMore(vs: seq<Value>, v: Value, r: Res<seq<Value>>)
    ensures Prepend(vs, Map(r, ws => [v] + ws)) == Prepend(vs + [v], r)
  {
    if r.Good? {
      assert vs + ([v] + r.value) == (vs + [v]) + r.value;
    }
  }

  /** Four bytes of a little-endian word; they do not overlap, so "or" is a sum. */
  function Little(b0: nat, b1: nat, b2: nat, b3: nat): nat {
    b0 + b1 * 0x100 + b2 * 0x1_0000 + b3 * 0x100_0000
  }

  lemma FourBytes(b: seq<byte>, p: nat)
    requires p + 4 <= |b|
    ensures FromBytes(b, p, 4) == Little(b[p], b[p + 1], b[p + 2], b[p + 3])
  {
    assert FromBytes(b, p + 4, 0) == 0;
    assert FromBytes(b, p + 3, 1) == b[p + 3];
    assert FromBytes(b, p + 2, 2) == b[p + 2] + 256 * FromBytes(b, p + 3, 1);
  }

  lemma EightBytes(b: seq<byte>, p: nat)
    requires p + 8 <= |b|
    ensures FromBytes(b, p, 8) ==
            Little(b[p], b[p + 1], b[p + 2], b[p + 3]) + Little(b[p + 4], b[p + 5], b[p + 6], b[p + 7]) * 0x1_0000_0000
  {
    FourBytes(b, p + 4);
    assert FromBytes(b, p + 2, 6) == b[p + 2] + 256 * FromBytes(b, p + 3, 5);
    assert FromBytes(b, p + 3, 5) == b[p + 3] + 256 * FromBytes(b, p + 4, 4);
  }

  lemma PrependNothing(r: Res<seq<Value>>)
    ensures Prepend([], r) == r
  {
    if r.Good? {
      assert [] + r.value == r.value;
    }
  }
}
