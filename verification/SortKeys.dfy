/** The orders in which an encoder may write hash keys.  Both are total, so what is written does not depend on
    the order in which the hash was walked. */
module SortKeys {
  import opened Varint
  import opened QuickSort

  datatype HashKey = HashKey(utf8: bool, bytes: seq<byte>)

  /** The sign of the first difference among the first n bytes. */
  function Memcmp(a: seq<byte>, b: seq<byte>, n: nat): int
    requires n <= |a| && n <= |b|
  {
    if n == 0 then 0 else if a[0] != b[0] then a[0] - b[0] else Memcmp(a[1..], b[1..], n - 1)
  }

  function Min(a: nat, b: nat): (m: nat)
    ensures m == a || m == b
    ensures m <= a && m <= b
  {
    if a < b then a else b
  }

  /** Shorter keys first, then those in UTF-8, then by bytes. */
  predicate FastLess(a: HashKey, b: HashKey) {
    if |a.bytes| != |b.bytes| then |a.bytes| < |b.bytes|
    else
      var u, v := if a.utf8 then 0 else 1, if b.utf8 then 0 else 1;
      if u != v then u < v
      else Memcmp(a.bytes, b.bytes, Min(|a.bytes|, |b.bytes|)) < 0
  }

  /** By bytes, a prefix first. */
  predicate PlainLess(a: seq<byte>, b: seq<byte>) {
    var c := Memcmp(a, b, Min(|a|, |b|));
    if c != 0 then c < 0 else |a| < |b|
  }

  function FastOrder(): (HashKey, HashKey) -> bool { (a, b) => FastLess(a, b) }

  function PlainOrder(): (seq<byte>, seq<byte>) -> bool { (a, b) => PlainLess(a, b) }

  /** Different elements are never equivalent. */
  ghost predicate Total<T(!new)>(lt: (T, T) -> bool) {
    StrictWeak(lt) && forall x, y :: !lt(x, y) && !lt(y, x) ==> x == y
  }

  lemma {:induction false} MemcmpFlip(a: seq<byte>, b: seq<byte>, n: nat)
    requires n <= |a| && n <= |b|
    ensures Memcmp(a, b, n) == -Memcmp(b, a, n)
    ensures Memcmp(a, b, n) == 0 <==> a[..n] == b[..n]
    decreases n
  {
    if n > 0 && a[0] == b[0] {
      MemcmpFlip(a[1..], b[1..], n - 1);
      assert a[..n] == [a[0]] + a[1..][..n - 1] && b[..n] == [b[0]] + b[1..][..n - 1];
    } else if n > 0 {
      assert a[..n][0] == a[0] && b[..n][0] == b[0];
    }
  }

  lemma {:induction false} MemcmpTrans(a: seq<byte>, b: seq<byte>, c: seq<byte>, n: nat)
    requires n <= |a| && n <= |b| && n <= |c| && Memcmp(a, b, n) <= 0 && Memcmp(b, c, n) <= 0
    ensures Memcmp(a, c, n) <= 0
    decreases n
  {
    if n > 0 && a[0] == b[0] == c[0] {
      MemcmpTrans(a[1..], b[1..], c[1..], n - 1);
    }
  }

  lemma FastIsTotal()
    ensures Total(FastOrder())
  {
    var lt := FastOrder();
    forall x, y
      ensures lt(x, y) ==> !lt(y, x)
      ensures !lt(x, y) && !lt(y, x) ==> x == y
    {
      if |x.bytes| == |y.bytes| {
        MemcmpFlip(x.bytes, y.bytes, |x.bytes|);
        assert x.bytes[..|x.bytes|] == x.bytes && y.bytes[..|y.bytes|] == y.bytes;
      }
    }
    forall x, y, z | !lt(y, x) && !lt(z, y)
      ensures !lt(z, x)
    {
      if |x.bytes| == |y.bytes| == |z.bytes| && x.utf8 == y.utf8 == z.utf8 {
        var n := |x.bytes|;
        MemcmpFlip(x.bytes, y.bytes, n);
        MemcmpFlip(y.bytes, z.bytes, n);
        MemcmpFlip(x.bytes, z.bytes, n);
        MemcmpTrans(x.bytes, y.bytes, z.bytes, n);
      }
    }
  }

  /** The order of the dictionary. */
  predicate Lexical(a: seq<byte>, b: seq<byte>) {
    b != [] && (a == [] || a[0] < b[0] || (a[0] == b[0] && Lexical(a[1..], b[1..])))
  }

  lemma {:induction false} PlainIsLexical(a: seq<byte>, b: seq<byte>)
    ensures PlainLess(a, b) <==> Lexical(a, b)
    decreases |a|
  {
    if a != [] && b != [] && a[0] == b[0] {
      PlainIsLexical(a[1..], b[1..]);
      assert Min(|a|, |b|) - 1 == Min(|a[1..]|, |b[1..]|);
    }
  }

  lemma {:induction false} LexicalOrder(a: seq<byte>, b: seq<byte>)
    ensures Lexical(a, b) ==> !Lexical(b, a)
    ensures !Lexical(a, b) && !Lexical(b, a) ==> a == b
    decreases |a|
  {
    if a != [] && b != [] && a[0] == b[0] {
      LexicalOrder(a[1..], b[1..]);
      assert a == [a[0]] + a[1..] && b == [b[0]] + b[1..];
    }
  }

  lemma {:induction false} LexicalTrans(a: seq<byte>, b: seq<byte>, c: seq<byte>)
    requires !Lexical(b, a) && !Lexical(c, b)
    ensures !Lexical(c, a)
    decreases |a|
  {
    if a != [] && b != [] && c != [] && a[0] == b[0] == c[0] {
      LexicalTrans(a[1..], b[1..], c[1..]);
    }
  }

  lemma PlainIsTotal()
    ensures Total(PlainOrder())
  {
    var lt := PlainOrder();
    forall x, y
      ensures lt(x, y) <==> Lexical(x, y)
      ensures lt(x, y) ==> !lt(y, x)
      ensures !lt(x, y) && !lt(y, x) ==> x == y
    {
      PlainIsLexical(x, y);
      PlainIsLexical(y, x);
      LexicalOrder(x, y);
    }
    forall x, y, z | !lt(y, x) && !lt(z, y)
      ensures !lt(z, x)
    {
      LexicalTrans(x, y, z);
    }
  }

  lemma SameFirst<T(!new)>(lt: (T, T) -> bool, s: seq<T>, t: seq<T>)
    requires Total(lt) && Sorted(lt, s) && Sorted(lt, t) && s != [] && t != [] && s[0] in t && t[0] in s
    ensures s[0] == t[0]
  {
    hide StrictWeak;
    var i :| 0 <= i < |t| && t[i] == s[0];
    var j :| 0 <= j < |s| && s[j] == t[0];
    assert i > 0 ==> !lt(t[i], t[0]);
    assert j > 0 ==> !lt(s[j], s[0]);
  }

  lemma RestOf<T>(s: seq<T>)
    requires s != []
    ensures multiset(s[1..]) == multiset(s) - multiset{s[0]}
  {
    assert s == [s[0]] + s[1..];
  }

  lemma SameMembers<T>(s: seq<T>, t: seq<T>)
    requires multiset(s) == multiset(t)
    ensures |s| == |t| && (s != [] ==> s[0] in t && t[0] in s)
  {
    assert |s| == |multiset(s)| && |t| == |multiset(t)|;
    assert s != [] ==> s[0] in multiset(s) && t[0] in multiset(t);
  }

  /** Under a total order there is one way to sort. */
  lemma {:induction false} SortedOnce<T(!new)>(lt: (T, T) -> bool, s: seq<T>, t: seq<T>)
    requires Total(lt) && Sorted(lt, s) && Sorted(lt, t) && multiset(s) == multiset(t)
    ensures s == t
    decreases |s|
  {
    hide Total;
    SameMembers(s, t);
    if s != [] {
      SameFirst(lt, s, t);
      RestOf(s);
      RestOf(t);
      SortedOnce(lt, s[1..], t[1..]);
      assert s == [s[0]] + s[1..] && t == [t[0]] + t[1..];
    }
  }

  /** How keys are to come out: the lengths never fall; among keys of one length those in UTF-8 come first;
      and among those of one length and form the bytes rise as in a dictionary. */
  ghost predicate ByLength(s: seq<HashKey>) {
    forall i, j :: 0 <= i < j < |s| ==> NotAfter(s[i], s[j])
  }

  predicate NotAfter(a: HashKey, b: HashKey) {
    && |a.bytes| <= |b.bytes|
    && (|a.bytes| == |b.bytes| && b.utf8 ==> a.utf8)
    && (|a.bytes| == |b.bytes| && a.utf8 == b.utf8 ==> a.bytes == b.bytes || Lexical(a.bytes, b.bytes))
  }

  lemma {:induction false} MemcmpIsLexical(a: seq<byte>, b: seq<byte>)
    requires |a| == |b|
    ensures Memcmp(a, b, |a|) < 0 <==> Lexical(a, b)
    decreases |a|
  {
    if a != [] && a[0] == b[0] {
      MemcmpIsLexical(a[1..], b[1..]);
    }
  }

  lemma FastIsByLength(a: HashKey, b: HashKey)
    ensures !FastLess(b, a) <==> NotAfter(a, b)
  {
    if |a.bytes| == |b.bytes| {
      MemcmpIsLexical(b.bytes, a.bytes);
      LexicalOrder(a.bytes, b.bytes);
    }
  }

  lemma FastSorted(s: seq<HashKey>)
    ensures Sorted(FastOrder(), s) <==> ByLength(s)
  {
    forall i, j | 0 <= i < j < |s|
      ensures !FastOrder()(s[j], s[i]) <==> NotAfter(s[i], s[j])
    {
      FastIsByLength(s[i], s[j]);
    }
  }

  /** Sorts the keys; whatever order they came in, the result is the same. */
  method SortHashKeys(a: array<HashKey>)
    requires a.Length < UNSIGNED
    modifies a
    ensures multiset(a[..]) == old(multiset(a[..])) && ByLength(a[..])
    ensures forall t :: multiset(t) == old(multiset(a[..])) && ByLength(t) ==> a[..] == t
  {
    FastIsTotal();
    QSort(a, FastOrder());
    FastSorted(a[..]);
    forall t | multiset(t) == multiset(a[..]) && ByLength(t)
      ensures a[..] == t
    {
      FastSorted(t);
      SortedOnce(FastOrder(), a[..], t);
    }
  }

  /** Two keys, the longer one first: they change places. */
  method ShorterFirst() returns (a: array<HashKey>)
    ensures a[..] == [HashKey(false, [98]), HashKey(false, [97, 97])]
  {
    a := new HashKey[2] [HashKey(false, [97, 97]), HashKey(false, [98])];
    var want := [HashKey(false, [98]), HashKey(false, [97, 97])];
    assert a[..] == [HashKey(false, [97, 97]), HashKey(false, [98])];
    assert multiset(want) == multiset(a[..]);
    SortHashKeys(a);
  }
}
