/** The machine code of varints: the checked reader, the unrolled reader without checks, the choice between
    them, the writers, and zigzag.  All are measured against `Varint.Read` and `Varint.Write`. */
module VarintIO {
  import opened Varint

  /** The unrolled reader is chosen outright when this many bytes are left. */
  const MAX_VARINT_LENGTH := 11

  /** How a read ends.  `PastEnd` stands for reading past the end of the buffer. */
  datatype Got = Value(v: nat) | TooBig | EndOfPacket | PastEnd

  /** Ten continuation bytes in a row. */
  predicate Runaway(b: seq<byte>, p: nat) {
    p + MAX_BYTES <= |b| && Continued(b, p, MAX_BYTES)
  }

  predicate Continued(b: seq<byte>, p: nat, k: nat)
    requires p + k <= |b|
  {
    forall i :: p <= i < p + k ==> b[i] >= HIGH
  }

  /** The value of a digit, or of a group of digits, with k digits below it. */
  function Scaled(d: nat, k: nat): nat {
    d * Pow128(k)
  }

  lemma ScaledAdd(x: nat, y: nat, k: nat)
    ensures Scaled(x + y, k) == Scaled(x, k) + Scaled(y, k)
  {
  }

  lemma ScaledNext(v: nat, k: nat)
    ensures Scaled(HIGH * v, k) == Scaled(v, k + 1)
  {
  }

  lemma {:induction false} ScaledTwice(x: nat, j: nat, k: nat)
    ensures Scaled(Scaled(x, j), k) == Scaled(x, j + k)
    decreases j
  {
    if j == 0 {
      assert Scaled(x, 0) == x;
    } else {
      ScaledTwice(HIGH * x, j - 1, k);
      ScaledNext(x, j - 1);
      ScaledNext(x, j + k - 1);
    }
  }

  lemma MulMono(x: nat, y: nat, z: nat)
    requires x < y
    ensures x * z + z <= y * z
  {
    var d: nat := y - (x + 1);
    calc {
      y * z;
      ((x + 1) + d) * z;
      { Distribute(x + 1, d, z); }
      (x + 1) * z + d * z;
      { Distribute(x, 1, z); }
      x * z + 1 * z + d * z;
    }
  }

  lemma Distribute(x: nat, y: nat, z: nat)
    ensures (x + y) * z == x * z + y * z && y * z >= 0
  {
  }

  lemma PowSum(n: nat, k: nat)
    ensures Pow128(n + k) == Pow128(n) * Pow128(k)
  {
    ScaledTwice(1, n, k);
  }

  lemma ScaledSmall(x: nat, k: nat)
    requires x < HIGH
    ensures Scaled(x, k) + Pow128(k) <= Pow128(k + 1)
  {
    MulMono(x, HIGH, Pow128(k));
  }

  lemma ScaledLess(x: nat, y: nat, n: nat, k: nat)
    requires x < Pow128(k) && y < Pow128(n)
    ensures x + Scaled(y, k) < Pow128(n + k)
  {
    PowSum(n, k);
    MulMono(y, Pow128(n), Pow128(k));
  }

  lemma ScaledPlain(x: nat)
    ensures Scaled(x, 0) == x && Scaled(x, 1) == x * 0x80 && Scaled(x, 2) == x * 0x4000 && Scaled(x, 3) == x * 0x20_0000
  {
    PowersOf128();
  }

  lemma ScaledZero(k: nat)
    ensures Scaled(0, k) == 0
  {
  }

  lemma PowersOf128()
    ensures Pow128(0) == 1 && Pow128(1) == 0x80 && Pow128(2) == 0x4000 && Pow128(3) == 0x20_0000
    ensures Pow128(4) == 0x1000_0000 && Pow128(8) == 0x100_0000_0000_0000
  {
    assert Pow128(5) == HIGH * Pow128(4);
    assert Pow128(6) == HIGH * Pow128(5);
    assert Pow128(7) == HIGH * Pow128(6);
  }

  /** The number denoted by the first k digits. */
  function Prefix(b: seq<byte>, p: nat, k: nat): (n: nat)
    requires p + k <= |b| && Continued(b, p, k)
    ensures n < Pow128(k)
  {
    if k == 0 then 0
    else
      ScaledSmall(b[p + k - 1] - HIGH, k - 1);
      Prefix(b, p, k - 1) + Scaled(b[p + k - 1] - HIGH, k - 1)
  }

  /** Digits put above the 7k bits already read: the two do not overlap, so "or" is a sum, and what
      reaches beyond the machine word is lost. */
  function OrAbove(uv: nat, k: nat, d: nat): (r: nat)
    requires uv < Pow128(k)
  {
    (uv + Scaled(d, k)) % WORD
  }

  lemma {:induction false} DigitsAfter(b: seq<byte>, p: nat, k: nat)
    requires p + k <= |b| && k < MAX_BYTES && Continued(b, p, k)
    ensures Digits(b, p, 0) ==
            (match Digits(b, p + k, k)
             case None => None
             case Some((v, q)) => Some((Prefix(b, p, k) + Scaled(v, k), q)))
    decreases k
  {
    if k == 0 {
      if Digits(b, p, 0).Some? {
        ScaledPlain(Digits(b, p, 0).value.0);
      }
    } else {
      hide Scaled, Pow128;
      DigitsAfter(b, p, k - 1);
      DigitsNext(b, p + k - 1, k - 1);
      hide Digits;
      if Digits(b, p + k, k).Some? {
        var v := Digits(b, p + k, k).value.0;
        ScaledAdd(b[p + k - 1] - HIGH, HIGH * v, k - 1);
        ScaledNext(v, k - 1);
      }
    }
  }

  lemma DigitsNext(b: seq<byte>, p: nat, k: nat)
    requires p < |b| && k < MAX_BYTES && b[p] >= HIGH
    ensures Digits(b, p, k) ==
            (match Digits(b, p + 1, k + 1)
             case None => None
             case Some((v, q)) => Some((b[p] - HIGH + HIGH * v, q)))
  {
  }

  /** The reading ends after k continuation bytes, with the digit there. */
  lemma ReadEnds(b: seq<byte>, p: nat, k: nat)
    requires p + k < |b| && k < MAX_BYTES && Continued(b, p, k) && b[p + k] < HIGH
    ensures Read(b, p) == Some((OrAbove(Prefix(b, p, k), k, b[p + k]), p + k + 1))
    ensures !Runaway(b, p)
  {
    DigitsAfter(b, p, k);
  }

  lemma ReadFails(b: seq<byte>, p: nat, k: nat)
    requires p + k <= |b| && k <= MAX_BYTES && Continued(b, p, k) && (p + k == |b| || k == MAX_BYTES)
    ensures Read(b, p).None?
    ensures Runaway(b, p) <==> k == MAX_BYTES
  {
    if k < MAX_BYTES {
      DigitsAfter(b, p, k);
    } else {
      DigitsAfter(b, p, k - 1);
    }
  }

  /** What any reader may answer for the bytes at p, leaving off at q. */
  ghost predicate Agrees(b: seq<byte>, p: nat, r: Got, q: nat) {
    match r
    case Value(v) => Read(b, p) == Some((v, q))
    case TooBig => Read(b, p).None? && Runaway(b, p)
    case EndOfPacket => Read(b, p).None? && !Runaway(b, p)
    case PastEnd => false
  }

  /** The answer is unique, so two readers that agree with the bytes agree with each other. */
  lemma AgreesOnce(b: seq<byte>, p: nat, r: Got, q: nat, r': Got, q': nat)
    requires Agrees(b, p, r, q) && Agrees(b, p, r', q')
    ensures r == r' && (r.Value? ==> q == q')
  {
  }

  /** Digits read in two parts. */
  lemma {:induction false} PrefixSplit(b: seq<byte>, p: nat, k: nat, j: nat)
    requires p + k + j <= |b| && Continued(b, p, k) && Continued(b, p + k, j)
    ensures Continued(b, p, k + j)
    ensures Prefix(b, p, k + j) == Prefix(b, p, k) + Scaled(Prefix(b, p + k, j), k)
    decreases j
  {
    hide Scaled;
    if j == 0 {
      ScaledZero(k);
    } else {
      PrefixSplit(b, p, k, j - 1);
      var x := b[p + k + j - 1] - HIGH;
      ScaledAdd(Prefix(b, p + k, j - 1), Scaled(x, j - 1), k);
      ScaledTwice(x, j - 1, k);
    }
  }

  /** The unrolled reader may start here: there is room for the longest varint, or the last byte of the
      buffer will stop it. */
  predicate Bounded(b: seq<byte>, p: nat) {
    p + MAX_VARINT_LENGTH <= |b| || (p < |b| && b[|b| - 1] < HIGH)
  }

  lemma NoDigits(b: seq<byte>, p: nat)
    requires p <= |b|
    ensures Continued(b, p, 0) && Prefix(b, p, 0) == 0
  {
  }

  lemma StaysInside(b: seq<byte>, p: nat, k: nat)
    requires Bounded(b, p) && k < MAX_BYTES && p + k <= |b| && Continued(b, p, k)
    ensures p + k < |b|
  {
    assert k > 0 ==> b[p + k - 1] >= HIGH;
  }

  /** Up to n digits from ptr on are collected in `part`; `more` says that none of them was the last. */
  ghost predicate Collected(b: seq<byte>, ptr: nat, n: nat, part: nat, next: nat, more: bool) {
    && ptr < next <= |b|
    && if more then next == ptr + n && Continued(b, ptr, n) && part == Prefix(b, ptr, n)
       else
         var j := next - ptr - 1;
         j < n && Continued(b, ptr, j) && b[ptr + j] < HIGH && part == Prefix(b, ptr, j) + Scaled(b[ptr + j], j)
  }

  lemma CollectedSmall(b: seq<byte>, ptr: nat, n: nat, part: nat, next: nat, more: bool)
    requires Collected(b, ptr, n, part, next, more)
    ensures part < Pow128(n)
  {
    if !more {
      var j := next - ptr - 1;
      PowGrows(j + 1, n);
      ScaledSmall(b[ptr + j], j);
    }
  }

  lemma {:induction false} PowGrows(j: nat, n: nat)
    requires j <= n
    ensures Pow128(j) <= Pow128(n)
    decreases n
  {
    if j < n {
      PowGrows(j, n - 1);
    }
  }

  /** The last part has been reached. */
  lemma EndsHere(b: seq<byte>, p: nat, k: nat, n: nat, part: nat, next: nat)
    requires k + n <= MAX_BYTES && p + k <= |b| && Continued(b, p, k)
    requires Collected(b, p + k, n, part, next, false)
    ensures Read(b, p) == Some((OrAbove(Prefix(b, p, k), k, part), next)) && !Runaway(b, p)
  {
    hide Scaled, Read, Runaway;
    var j := next - (p + k) - 1;
    PrefixSplit(b, p, k, j);
    ReadEnds(b, p, k + j);
    ScaledAdd(Prefix(b, p + k, j), Scaled(b[p + k + j], j), k);
    ScaledTwice(b[p + k + j], j, k);
  }

  lemma BelowWord(k: nat)
    requires k < MAX_BYTES
    ensures Pow128(k) < WORD
  {
    PowGrows(k, MAX_BYTES - 1);
    PowersOf128();
    assert Pow128(9) == HIGH * Pow128(8);
  }

  lemma PrefixNext(b: seq<byte>, p: nat, k: nat)
    requires p + k < |b| && Continued(b, p, k) && b[p + k] >= HIGH
    ensures Continued(b, p, k + 1) && Prefix(b, p, k + 1) == Prefix(b, p, k) + Scaled(b[p + k] - HIGH, k)
  {
  }

  /** The next digit of those that fit a word for sure. */
  lemma OrNext(b: seq<byte>, p: nat, k: nat)
    requires p + k < |b| && Continued(b, p, k) && b[p + k] >= HIGH && k + 1 < MAX_BYTES
    ensures Continued(b, p, k + 1) && OrAbove(Prefix(b, p, k), k, b[p + k] - HIGH) == Prefix(b, p, k + 1)
  {
    hide Scaled;
    PrefixNext(b, p, k);
    BelowWord(k + 1);
  }

  /** Three parts of 28, 28 and 14 bits, put together; those not reached are zero. */
  lemma ThreeParts(part0: nat, part1: nat, part2: nat)
    requires part0 < Pow128(4) && part1 < Pow128(4)
    ensures part0 + Scaled(part1, 4) < Pow128(8) && OrAbove(part0, 4, part1) == part0 + Scaled(part1, 4)
    ensures OrAbove(part0, 4, 0) == part0
    ensures part0 + Scaled(part1, 4) < WORD
    ensures OrAbove(part0 + Scaled(part1, 4), 8, 0) == part0 + Scaled(part1, 4)
    ensures part0 < Pow128(8) && OrAbove(part0, 8, 0) == part0 && OrAbove(0, 0, part0) == part0
  {
    PowersOf128();
    ScaledLess(part0, part1, 4, 4);
    ScaledPlain(part0);
  }

  class Reader {
    const data: seq<byte>
    var pos: nat

    constructor (data: seq<byte>, pos: nat)
      ensures this.data == data && this.pos == pos
    {
      this.data, this.pos := data, pos;
    }

    /** The checked loop. */
    method ReadSafe() returns (r: Got)
      requires pos <= |data|
      modifies `pos
      ensures Agrees(data, old(pos), r, pos)
    {
      hide Scaled, Read, Runaway, Prefix, OrAbove, Continued;
      NoDigits(data, pos);
      var uv, lshift := 0, 0;
      ghost var k := 0;
      while pos < |data| && data[pos] >= HIGH
        invariant 0 <= k < MAX_BYTES && pos == old(pos) + k <= |data| && lshift == 7 * k
        invariant Continued(data, old(pos), k)
        invariant uv == Prefix(data, old(pos), k)
        decreases |data| - pos
      {
        PrefixNext(data, old(pos), k);
        if k + 1 < MAX_BYTES {
          OrNext(data, old(pos), k);
        }
        uv := OrAbove(uv, lshift / 7, data[pos] - HIGH);
        pos, lshift, k := pos + 1, lshift + 7, k + 1;
        if lshift > 64 {
          ReadFails(data, old(pos), k);
          return TooBig;
        }
      }
      if pos < |data| {
        ReadEnds(data, old(pos), k);
        uv := OrAbove(uv, lshift / 7, data[pos]);
        pos := pos + 1;
        return Value(uv);
      }
      ReadFails(data, old(pos), k);
      return EndOfPacket;
    }

    /** Four digits at most, from ptr on, collected in a 32-bit word: each byte is added with its
        continuation bit, which is taken off again when it turns out to be set. */
    method ReadQuad(ptr: nat, ghost p: nat) returns (part: nat, next: nat, more: bool)
      requires Bounded(data, p) && p <= ptr <= p + 4 && ptr <= |data| && Continued(data, p, ptr - p)
      ensures part < Pow128(4) && Collected(data, ptr, 4, part, next, more)
    {
      hide Scaled, Prefix, Bounded, Pow128;
      NoDigits(data, ptr);
      StaysInside(data, p, ptr - p);
      var b := data[ptr];
      part, next, more := b, ptr + 1, false;
      ScaledPlain(b);
      if b >= HIGH {
        part := part - HIGH;
        Digit(p, ptr, 0);
        b := data[next];
        next, part := next + 1, part + b * 0x80;
        ScaledPlain(b);
        if b >= HIGH {
          part := part - HIGH * 0x80;
          Digit(p, ptr, 1);
          b := data[next];
          next, part := next + 1, part + b * 0x4000;
          ScaledPlain(b);
          if b >= HIGH {
            part := part - HIGH * 0x4000;
            Digit(p, ptr, 2);
            b := data[next];
            next, part := next + 1, part + b * 0x20_0000;
            ScaledPlain(b);
            if b >= HIGH {
              part := part - HIGH * 0x20_0000;
              PrefixNext(data, ptr, 3);
              ScaledPlain(b - HIGH);
              more := true;
            }
          }
        }
      }
      CollectedSmall(data, ptr, 4, part, next, more);
    }

    /** The digit at ptr + j is not the last. */
    lemma Digit(p: nat, ptr: nat, j: nat)
      requires Bounded(data, p) && p <= ptr && ptr - p + j + 1 < MAX_BYTES
      requires ptr + j < |data| && Continued(data, p, ptr - p) && Continued(data, ptr, j) && data[ptr + j] >= HIGH
      ensures ptr + j + 1 < |data| && Continued(data, ptr, j + 1)
      ensures Prefix(data, ptr, j + 1) == Prefix(data, ptr, j) + Scaled(data[ptr + j] - HIGH, j)
      ensures var x := data[ptr + j] - HIGH;
              Scaled(x, 0) == x && Scaled(x, 1) == x * 0x80 && Scaled(x, 2) == x * 0x4000
    {
      StaysInside(data, p, ptr - p + j + 1);
      ScaledPlain(data[ptr + j] - HIGH);
    }

    /** The ninth and tenth digit. */
    method ReadPair(ptr: nat, ghost p: nat) returns (part: nat, next: nat, more: bool)
      requires Bounded(data, p) && ptr == p + 8 <= |data| && Continued(data, p, 8)
      ensures if more then p + MAX_BYTES <= |data| && Continued(data, p, MAX_BYTES)
              else Collected(data, ptr, 2, part, next, false)
    {
      hide Scaled, Prefix;
      NoDigits(data, ptr);
      StaysInside(data, p, 8);
      var b := data[ptr];
      part, next, more := b, ptr + 1, false;
      ScaledPlain(b);
      if b >= HIGH {
        part := part - HIGH;
        Digit(p, ptr, 0);
        b := data[next];
        next, part := next + 1, part + b * 0x80;
        ScaledPlain(b);
        more := b >= HIGH;
      }
    }

    /** The unrolled reader, without a check against the end of the buffer: parts of 28, 28 and 14 bits. */
    method ReadUnrolled() returns (r: Got)
      requires Bounded(data, pos)
      modifies `pos
      ensures Agrees(data, old(pos), r, pos) && !r.EndOfPacket?
    {
      hide Read, Runaway, Scaled, Continued, OrAbove, Prefix;
      ghost var p := pos;
      NoDigits(data, p);
      var part0, part1, part2, ptr, more;
      part1, part2 := 0, 0;
      part0, ptr, more := ReadQuad(pos, p);
      if more {
        part1, ptr, more := ReadQuad(ptr, p);
        if more {
          PrefixSplit(data, p, 4, 4);
          part2, ptr, more := ReadPair(ptr, p);
          if more {
            ReadFails(data, p, MAX_BYTES);
            return TooBig;
          }
          EndsHere(data, p, 8, 2, part2, ptr);
        } else {
          EndsHere(data, p, 4, 4, part1, ptr);
        }
      } else {
        EndsHere(data, p, 0, 4, part0, ptr);
      }
      ThreeParts(part0, part1, part2);
      var uv := OrAbove(OrAbove(part0, 4, part1), 8, part2);
      pos := ptr;
      return Value(uv);
    }

    /** The reader in use.  With a byte left to read it does what the checked loop does, whichever way it
        goes, and stays inside the buffer.  At the end of the buffer it looks at the byte before. */
    method ReadUv() returns (r: Got)
      requires 0 < pos <= |data|
      modifies `pos
      ensures old(pos) < |data| ==> Agrees(data, old(pos), r, pos)
      ensures old(pos) == |data| ==> r == if data[|data| - 1] < HIGH then PastEnd else EndOfPacket
    {
      if |data| - pos >= MAX_VARINT_LENGTH || data[|data| - 1] < HIGH {
        if pos == |data| {
          return PastEnd;
        }
        r := ReadUnrolled();
      } else {
        r := ReadSafe();
      }
    }
  }

  // ----- writing -----

  /** The number of bytes the varint of `value` takes. */
  method VarintLength(value: nat) returns (length: nat)
    ensures length == |Write(value)|
  {
    var v: nat := value;
    length := 0;
    while v >= HIGH
      invariant length + |Write(v)| == |Write(value)|
    {
      length := length + 1;
      v := v / HIGH;
    }
    length := length + 1;
  }

  /** Rewrites the varint field buf[from..=to] with a number that fits it.  The tail of the field is
      padded with empty digits, so that a reader consumes exactly the field. */
  method UpdateVarint(buf: array<byte>, from: nat, to: nat, number: nat)
    requires from <= to < buf.Length && number < Pow128(to + 1 - from)
    modifies buf
    ensures forall i :: 0 <= i < buf.Length && !(from <= i <= to) ==> buf[i] == old(buf[i])
    ensures Filled(buf[..], from, to, number)
  {
    hide Scaled, Prefix;
    var pos, n: nat := from, number;
    NoDigits(buf[..], from);
    ScaledPlain(number);
    while n >= HIGH
      invariant from <= pos <= to && n < Pow128(to + 1 - pos)
      invariant forall i :: 0 <= i < buf.Length && !(from <= i <= to) ==> buf[i] == old(buf[i])
      invariant Continued(buf[..], from, pos - from)
      invariant number == Prefix(buf[..], from, pos - from) + Scaled(n, pos - from)
      decreases n
    {
      ghost var was := buf[..];
      buf[pos] := n % HIGH + HIGH;
      PrefixSame(was, buf[..], from, pos - from);
      PrefixNext(buf[..], from, pos - from);
      MoreDigits(n, pos - from);
      pos, n := pos + 1, n / HIGH;
    }
    if pos == to {
      ghost var was := buf[..];
      buf[pos] := n;
      PrefixSame(was, buf[..], from, pos - from);
    } else {
      PadVarint(buf, from, pos, to, n);
    }
  }

  /** The last digit n that is not empty, at pos, and padding from there to the end of the field. */
  method PadVarint(buf: array<byte>, ghost from: nat, start: nat, to: nat, n: nat)
    requires from <= start < to < buf.Length && n < HIGH && Continued(buf[..], from, start - from)
    modifies buf
    ensures forall i :: 0 <= i < buf.Length && !(from <= i <= to) ==> buf[i] == old(buf[i])
    ensures Filled(buf[..], from, to, Prefix(old(buf[..]), from, start - from) + Scaled(n, start - from))
  {
    hide Scaled, Prefix;
    ghost var was := buf[..];
    ghost var number := Prefix(was, from, start - from) + Scaled(n, start - from);
    var pos := start;
    buf[pos] := n + HIGH;
    PrefixSame(was, buf[..], from, pos - from);
    PrefixNext(buf[..], from, pos - from);
    pos := pos + 1;
    while pos < to
      invariant start < pos <= to
      invariant forall i :: 0 <= i < buf.Length && !(from <= i <= to) ==> buf[i] == old(buf[i])
      invariant Continued(buf[..], from, pos - from) && number == Prefix(buf[..], from, pos - from)
    {
      was := buf[..];
      buf[pos] := 0x80;
      PrefixSame(was, buf[..], from, pos - from);
      PrefixNext(buf[..], from, pos - from);
      ScaledZero(pos - from);
      pos := pos + 1;
    }
    was := buf[..];
    buf[pos] := 0;
    PrefixSame(was, buf[..], from, pos - from);
    ScaledZero(to - from);
  }

  /** The field holds the digits of n, and ends where it should. */
  ghost predicate Filled(b: seq<byte>, from: nat, to: nat, n: nat) {
    && from <= to < |b| && Continued(b, from, to - from) && b[to] < HIGH
    && n == Prefix(b, from, to - from) + Scaled(b[to], to - from)
  }

  /** A field of at most ten bytes, rewritten, reads back as the number and is consumed whole. */
  lemma FilledReads(b: seq<byte>, from: nat, to: nat, n: nat)
    requires Filled(b, from, to, n) && to - from < MAX_BYTES && n < WORD
    ensures Read(b, from) == Some((n, to + 1))
  {
    hide Scaled, Prefix, Read, Continued;
    ReadEnds(b, from, to - from);
  }

  lemma {:induction false} PrefixSame(b: seq<byte>, c: seq<byte>, p: nat, k: nat)
    requires p + k <= |b| && p + k <= |c| && Continued(b, p, k)
    requires forall i :: p <= i < p + k ==> b[i] == c[i]
    ensures Continued(c, p, k) && Prefix(c, p, k) == Prefix(b, p, k)
    decreases k
  {
    if k > 0 {
      PrefixSame(b, c, p, k - 1);
    }
  }

  lemma MoreDigits(n: nat, k: nat)
    ensures Scaled(n % HIGH, k) + Scaled(n / HIGH, k + 1) == Scaled(n, k)
  {
    hide Scaled;
    ScaledNext(n / HIGH, k);
    ScaledAdd(n % HIGH, HIGH * (n / HIGH), k);
  }

  // ----- zigzag -----

  const IV_MAX := 0x7fff_ffff_ffff_ffff

  /** A signed 64-bit value. */
  type iv = i: int | -IV_MAX - 1 <= i <= IV_MAX

  type uv = i: int | 0 <= i < WORD

  /** Exclusive or with a word of ones turns every bit over. */
  function Flip(u: uv): uv { WORD - 1 - u }

  /** (value << 1) ^ (value >> 63) */
  function Zigzag(value: iv): uv {
    var shifted: uv := (2 * value) % WORD;
    if value < 0 then Flip(shifted) else shifted
  }

  function Signed(u: uv): iv {
    if u <= IV_MAX then u else u - WORD
  }

  /** (n >> 1) ^ -(n & 1) */
  function Unzigzag(n: uv): iv {
    Signed(if n % 2 == 1 then Flip(n / 2) else n / 2)
  }

  /** Zigzag is a bijection between signed and unsigned words; it counts 0, -1, 1, -2, 2 and so on. */
  lemma ZigzagBijection(value: iv, n: uv)
    ensures Unzigzag(Zigzag(value)) == value && Zigzag(Unzigzag(n)) == n
    ensures Zigzag(value) == if value >= 0 then 2 * value else -2 * value - 1
  {
    if value < 0 {
      assert (2 * value) % WORD == 2 * value + WORD;
    }
    var u := Unzigzag(n);
    if n % 2 == 1 {
      assert u == -(n / 2) - 1;
      assert (2 * u) % WORD == 2 * u + WORD;
    }
  }

  /** -(1 + (n >> 1)): how the Go decoder undoes zigzag. */
  function GoUnzigzag(n: uv): iv {
    -(1 + n / 2)
  }

  /** The Go decoder takes every zigzag number to be negative: it is right exactly for those. */
  lemma GoZigzag(value: iv)
    ensures GoUnzigzag(Zigzag(value)) == value <==> value < 0
  {
    ZigzagBijection(value, 0);
  }
}
