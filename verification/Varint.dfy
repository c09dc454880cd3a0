/** Bytes, and the base-128 integers that every length, count and offset is written in.
    The format is the one of the Protocol Buffers Encoding guide, section "Base 128 Varints". */
module Varint {

  type byte = i: int | 0 <= i < 256

  datatype Option<+T> = None | Some(value: T)

  /** The high bit: "more bytes follow" inside a varint, "this tag is referred to" on a tag. */
  const HIGH := 128

  /** Unsigned machine words have 64 bits. */
  const WORD := 0x1_0000_0000_0000_0000

  /** A varint of at most this many bytes is read; the next continuation byte is an error. */
  const MAX_BYTES := 10

  /** The n bytes of b from p on are the n bytes of c from q on. */
  ghost predicate SameBytes(b: seq<byte>, p: nat, c: seq<byte>, q: nat, n: nat) {
    p + n <= |b| && q + n <= |c| && b[p..p + n] == c[q..q + n]
  }

  lemma SliceSlice<T>(s: seq<T>, a: nat, b: nat, i: nat, j: nat)
    requires a <= b <= |s| && i <= j <= b - a
    ensures s[a..b][i..j] == s[a + i..a + j]
  {
    var l, r := s[a..b][i..j], s[a + i..a + j];
    forall k | 0 <= k < |l|
      ensures l[k] == r[k]
    {
      assert l[k] == s[a..b][i + k] == s[a + (i + k)];
      assert r[k] == s[(a + i) + k];
    }
  }

  lemma SamePart(b: seq<byte>, p: nat, c: seq<byte>, q: nat, n: nat, i: nat, k: nat)
    requires SameBytes(b, p, c, q, n) && i + k <= n
    ensures SameBytes(b, p + i, c, q + i, k)
    ensures i < n ==> b[p + i] == c[q + i]
  {
    SliceSlice(b, p, p + n, i, i + k);
    SliceSlice(c, q, q + n, i, i + k);
    if i < n {
      assert b[p + i] == b[p..p + n][i] == c[q..q + n][i];
    }
  }

  /** The digits from p on, k of them already consumed: the number they denote, and where it ends. */
  function Digits(b: seq<byte>, p: nat, k: nat): (r: Option<(nat, nat)>)
    ensures r.Some? ==> p < r.value.1 <= |b|
    decreases |b| - p
  {
    if p >= |b| || k >= MAX_BYTES then None
    else if b[p] < HIGH then Some((b[p], p + 1))
    else match Digits(b, p + 1, k + 1)
      case None => None
      case Some((v, q)) => Some((b[p] - HIGH + HIGH * v, q))
  }

  /** What a reader gets at p: the low 64 bits of the number, and the position after it. */
  function Read(b: seq<byte>, p: nat): (r: Option<(nat, nat)>)
    ensures r.Some? ==> p < r.value.1 <= |b| && r.value.0 < WORD
  {
    match Digits(b, p, 0)
    case None => None
    case Some((v, q)) => Some((v % WORD, q))
  }

  /** The canonical varint of n. */
  function Write(n: nat): (s: seq<byte>)
    ensures |s| >= 1
    decreases n
  {
    if n < HIGH then [n] else [n % HIGH + HIGH] + Write(n / HIGH)
  }

  function Pow128(k: nat): (r: nat)
    ensures r >= 1
  {
    if k == 0 then 1 else HIGH * Pow128(k - 1)
  }

  lemma {:induction false} DigitsShift(b: seq<byte>, p: nat, c: seq<byte>, q: nat, k: nat)
    requires Digits(b, p, k).Some?
    requires SameBytes(b, p, c, q, Digits(b, p, k).value.1 - p)
    ensures Digits(c, q, k) == Some((Digits(b, p, k).value.0, q + (Digits(b, p, k).value.1 - p)))
    decreases |b| - p
  {
    var n := Digits(b, p, k).value.1 - p;
    SamePart(b, p, c, q, n, 0, 1);
    if b[p] >= HIGH {
      SamePart(b, p, c, q, n, 1, n - 1);
      DigitsShift(b, p + 1, c, q + 1, k + 1);
    }
  }

  /** Reading looks only at the bytes of the varint itself. */
  lemma ReadShift(b: seq<byte>, p: nat, c: seq<byte>, q: nat)
    requires Read(b, p).Some?
    requires SameBytes(b, p, c, q, Read(b, p).value.1 - p)
    ensures Read(c, q) == Some((Read(b, p).value.0, q + (Read(b, p).value.1 - p)))
  {
    DigitsShift(b, p, c, q, 0);
  }

  lemma {:induction false} WriteLength(n: nat, k: nat)
    requires k >= 1 && n < Pow128(k)
    ensures |Write(n)| <= k
    decreases n
  {
    if n >= HIGH {
      assert n < HIGH * Pow128(k - 1);
      WriteLength(n / HIGH, k - 1);
    }
  }

  lemma {:induction false} DigitsWrite(b: seq<byte>, p: nat, n: nat, k: nat)
    requires p + |Write(n)| <= |b| && b[p..p + |Write(n)|] == Write(n)
    requires k + |Write(n)| <= MAX_BYTES
    ensures Digits(b, p, k) == Some((n, p + |Write(n)|))
    decreases n
  {
    var w := Write(n);
    assert b[p] == b[p..p + |w|][0] == w[0];
    if n >= HIGH {
      assert w[1..] == Write(n / HIGH);
      assert b[p + 1..p + |w|] == b[p..p + |w|][1..];
      DigitsWrite(b, p + 1, n / HIGH, k + 1);
    }
  }

  lemma WordFits()
    ensures WORD <= Pow128(MAX_BYTES)
  {
    assert Pow128(2) == HIGH * HIGH;
    assert Pow128(4) == HIGH * HIGH * Pow128(2);
    assert Pow128(6) == HIGH * HIGH * Pow128(4);
    assert Pow128(8) == HIGH * HIGH * Pow128(6);
    assert Pow128(10) == HIGH * HIGH * Pow128(8);
  }

  /** Writing then reading is the identity on 64-bit words, wherever the varint stands. */
  lemma ReadWrite(b: seq<byte>, p: nat, n: nat)
    requires n < WORD
    requires p + |Write(n)| <= |b| && b[p..p + |Write(n)|] == Write(n)
    ensures |Write(n)| <= MAX_BYTES
    ensures Read(b, p) == Some((n, p + |Write(n)|))
  {
    WordFits();
    WriteLength(n, MAX_BYTES);
    DigitsWrite(b, p, n, 0);
  }
}
