/** The format in figures: what every byte of a body reads as, opens and means, and what a varint is worth.
    Nothing here uses the names that the other modules give to tags and limits. */
module Tags {
  import opened Varint
  import opened Wire

  // ----- numbers -----

  /** What base-128 digits are worth, the least significant first, whatever their high bits. */
  function Worth(s: seq<byte>): nat {
    if s == [] then 0 else s[0] % 128 + 128 * Worth(s[1..])
  }

  /** All bytes but the last have the high bit. */
  predicate Ended(s: seq<byte>) {
    s != [] && s[|s| - 1] < 128 && forall i :: 0 <= i < |s| - 1 ==> s[i] >= 128
  }

  lemma EndedMore(x: byte, s: seq<byte>)
    ensures s != [] ==> (Ended([x] + s) <==> x >= 128 && Ended(s))
    ensures Ended([x]) <==> x < 128
    ensures Worth([x] + s) == x % 128 + 128 * Worth(s)
  {
    var t := [x] + s;
    assert t[1..] == s;
    if s != [] && Ended(t) {
      forall i | 0 <= i < |s| - 1
        ensures s[i] >= 128
      {
        assert t[i + 1] >= 128;
      }
    }
  }

  lemma {:induction false} DigitsWorth(b: seq<byte>, p: nat, k: nat)
    ensures Digits(b, p, k).Some? ==>
      var (n, q) := Digits(b, p, k).value;
      p < q <= |b| && q - p + k <= 10 && Ended(b[p..q]) && n == Worth(b[p..q])
    decreases |b| - p
  {
    if Digits(b, p, k).Some? && b[p] >= 128 {
      DigitsWorth(b, p + 1, k + 1);
      var q := Digits(b, p, k).value.1;
      EndedMore(b[p], b[p + 1..q]);
      assert b[p..q] == [b[p]] + b[p + 1..q];
    }
  }

  lemma {:induction false} DigitsThere(b: seq<byte>, p: nat, q: nat, k: nat)
    requires p < q <= |b| && q - p + k <= 10 && Ended(b[p..q])
    ensures Digits(b, p, k).Some? && Digits(b, p, k).value.1 == q
    decreases q - p
  {
    assert b[p..q] == [b[p]] + b[p + 1..q];
    EndedMore(b[p], b[p + 1..q]);
    assert b[p..q][0] == b[p];
    if b[p] >= 128 {
      DigitsThere(b, p + 1, q, k + 1);
    }
  }

  /** A varint is read at p exactly when its last byte comes within ten, and is worth the low 64 bits. */
  lemma ReadWorth(b: seq<byte>, p: nat, q: nat)
    ensures (Read(b, p).Some? && Read(b, p).value.1 == q) <==> p < q <= |b| && q - p <= 10 && Ended(b[p..q])
    ensures Read(b, p).Some? && Read(b, p).value.1 == q ==> Read(b, p).value.0 == Worth(b[p..q]) % 0x1_0000_0000_0000_0000
  {
    DigitsWorth(b, p, 0);
    if p < q <= |b| && q - p <= 10 && Ended(b[p..q]) {
      DigitsThere(b, p, q, 0);
    }
  }

  /** What is written for n is worth n, and is the shortest that is. */
  lemma {:induction false} WriteWorth(n: nat)
    ensures Ended(Write(n)) && Worth(Write(n)) == n
    ensures |Write(n)| > 1 ==> Write(n)[|Write(n)| - 1] != 0
    decreases n
  {
    if n >= 128 {
      WriteWorth(n / 128);
      EndedMore(n % 128 + 128, Write(n / 128));
    }
  }

  // ----- tags -----

  /** The k bytes behind p. */
  function Payload(b: seq<byte>, p: nat, tag: int, k: nat): Option<(Token, nat)> {
    if p + 1 + k <= |b| then Some((Leaf(tag, b[p + 1..p + 1 + k]), p + 1 + k)) else None
  }

  function Spelled(b: seq<byte>, p: nat, utf8: bool): Option<(Token, nat)> {
    match Read(b, p + 1)
    case None => None
    case Some((n, q)) => if q + n <= |b| then Some((Text(utf8, b[q..q + n]), q + n)) else None
  }

  /** What the byte at p reads as: numbers, floats, constants and strings. */
  lemma ReadsValue(b: seq<byte>, p: nat)
    requires p < |b|
    ensures b[p] % 128 <= 31 ==> Scan(b, p) == Some((Leaf(b[p] % 128, []), p + 1))
    ensures b[p] % 128 in {32, 33} ==>
      Scan(b, p) == match Read(b, p + 1) case None => None case Some((n, q)) => Some((Num(b[p] % 128, n), q))
    ensures b[p] % 128 == 34 ==> Scan(b, p) == Payload(b, p, 34, 4)
    ensures b[p] % 128 == 35 ==> Scan(b, p) == Payload(b, p, 35, 8)
    ensures b[p] % 128 == 36 ==> Scan(b, p) == Payload(b, p, 36, 16)
    ensures b[p] % 128 in {37, 57, 58, 59} ==> Scan(b, p) == Some((Leaf(b[p] % 128, []), p + 1))
    ensures b[p] % 128 == 38 ==> Scan(b, p) == Spelled(b, p, false)
    ensures b[p] % 128 == 39 ==> Scan(b, p) == Spelled(b, p, true)
    ensures b[p] % 128 >= 96 ==>
      var q := p + 1 + (b[p] % 128 - 96);
      Scan(b, p) == if q <= |b| then Some((Text(false, b[p + 1..q]), q)) else None
  {
    hide Read;
  }

  /** The links, by their numbers: REFP, OBJECTV, ALIAS, COPY and OBJECTV_FREEZE. */
  function Link(tag: int, n: nat): Token {
    if tag == 41 then Refer(n) else if tag == 45 then ObjectV(44, n) else if tag == 46 then Alias(n)
    else if tag == 47 then Copy(n) else ObjectV(50, n)
  }

  /** The same for what holds other items, for links, and for the rest. */
  lemma ReadsOther(b: seq<byte>, p: nat)
    requires p < |b|
    ensures b[p] % 128 in {40, 44, 48, 50} ==> Scan(b, p) == Some((Open(b[p] % 128, 0), p + 1))
    ensures b[p] % 128 in {42, 43} ==>
      Scan(b, p) == match Read(b, p + 1) case None => None
                    case Some((n, q)) => if n <= 2147483647 then Some((Open(b[p] % 128, n), q)) else None
    ensures b[p] % 128 in {41, 45, 46, 47, 51} ==>
      Scan(b, p) == match Read(b, p + 1) case None => None case Some((n, q)) => Some((Link(b[p] % 128, n), q))
    ensures b[p] % 128 in {49, 62} ==> Scan(b, p) == Some((Other(b[p] % 128), p + 1))
    ensures b[p] % 128 in {52, 53, 54, 55, 56, 60, 61} ==> Scan(b, p) == None
    ensures b[p] % 128 == 63 ==> Scan(b, p) == Some((Pad, p + 1))
    ensures 64 <= b[p] % 128 <= 79 ==> Scan(b, p) == Some((Open(64, b[p] % 128 - 64), p + 1))
    ensures 80 <= b[p] % 128 <= 95 ==> Scan(b, p) == Some((Open(80, b[p] % 128 - 80), p + 1))
  {
    hide Read;
  }

  /** What is to follow: n items; n pairs of a string and an item; a class name and an item; one item. */
  lemma Follows(n: nat, x: nat, k: nat)
    ensures |Wants(Open(43, n))| == |Wants(Open(64, n))| == n
    ensures k < n ==> Wants(Open(43, n))[k] == Wants(Open(64, n))[k] == Item
    ensures |Wants(Open(42, n))| == |Wants(Open(80, n))| == 2 * n
    ensures k < 2 * n ==> Wants(Open(42, n))[k] == Wants(Open(80, n))[k] == if k % 2 == 0 then Key else Item
    ensures Wants(Open(44, 0)) == Wants(Open(50, 0)) == [Key, Item]
    ensures Wants(Open(40, 0)) == Wants(Open(48, 0)) == Wants(ObjectV(44, x)) == Wants(ObjectV(50, x)) == Wants(Pad) == [Item]
    ensures Wants(Refer(x)) == Wants(Alias(x)) == Wants(Copy(x)) == Wants(Other(49)) == Wants(Other(62)) == []
  {
  }

  lemma FollowsNothing(tag: int, data: seq<byte>, n: nat, utf8: bool)
    ensures Wants(Leaf(tag, data)) == Wants(Num(tag, n)) == Wants(Text(utf8, data)) == []
  {
  }

  /** Only strings and COPY may be keys; REGEXP and EXTEND are never read. */
  lemma KeysOnly(b: seq<byte>, p: nat, todo: seq<Want>)
    requires p < |b| && todo != []
    ensures todo[0] == Key && b[p] % 128 < 96 && b[p] % 128 !in {38, 39, 47} ==> Parse(b, p, todo) == None
    ensures b[p] % 128 in {49, 62} ==> Parse(b, p, todo) == None
    ensures Scan(b, p) == None ==> Parse(b, p, todo) == None
  {
    ReadsValue(b, p);
    ReadsOther(b, p);
    hide Scan, Read;
  }

  // ----- meaning -----

  /** The places of the children: the first begins behind the tag, each other where the one before it ends. */
  lemma {:induction false} Places(b: seq<byte>, p: nat, ws: seq<Want>, k: nat)
    requires Chain(b, p, ws).Some? && k < |ws|
    ensures var ks := Chain(b, p, ws).value;
            && |ks| == |ws| && ks[0] == p && Parse(b, ks[k], [ws[k]]).Some?
            && (k + 1 < |ws| ==> Parse(b, ks[k], [ws[k]]) == Some(ks[k + 1]))
    decreases |ws|
  {
    hide Scan, Parse;
    var e := Parse(b, p, [ws[0]]).value;
    if k > 0 {
      Places(b, e, ws[1..], k - 1);
    } else if |ws| > 1 {
      Places(b, e, ws[1..], 0);
    }
  }

  /** Numbers, floats, constants and strings mean what they are. */
  lemma MeansItself(b: seq<byte>, p: nat, d: nat)
    requires p < |b| && Scan(b, p).Some? && (b[p] % 128 <= 39 || b[p] % 128 in {57, 58, 59} || b[p] % 128 >= 96)
    ensures Meaning(b, p, d + 1) == Tree(Scan(b, p).value.0, [])
  {
    ReadsValue(b, p);
    hide Scan, Read, Meaning;
    var t := Scan(b, p).value.0;
    assert Resolve(b, p) == Some(p) && Head(b, p) == Some(Node(t, []));
    MeaningStep(b, p, d + 1);
    assert Meaning(b, p, d + 1).kids == [];
  }

  /** Padding means what is behind it; ALIAS what it points at, if that is behind it and not padding; COPY the
      string it points at, and nothing else. */
  lemma MeansOther(b: seq<byte>, p: nat, d: nat)
    requires p < |b| && Scan(b, p).Some?
    ensures b[p] % 128 == 63 ==> Meaning(b, p, d) == Meaning(b, p + 1, d)
    ensures b[p] % 128 == 46 ==>
      var x := Read(b, p + 1).value.0;
      Meaning(b, p, d + 1) == if 0 < x < p && b[x] % 128 != 63 then Meaning(b, x, d + 1) else Bad
    ensures b[p] % 128 == 47 ==>
      var x := Read(b, p + 1).value.0;
      Meaning(b, p, d + 1) == if 0 < x < p && Scan(b, x).Some? && Scan(b, x).value.0.Text? then Tree(Scan(b, x).value.0, []) else Bad
  {
    ReadsOther(b, p);
    hide Scan, Read;
    if b[p] % 128 == 46 || b[p] % 128 == 63 {
      hide Head;
      assert b[p] % 128 == 63 ==> Resolve(b, p) == Resolve(b, p + 1);
    } else if b[p] % 128 == 47 {
      var x := Read(b, p + 1).value.0;
      if 0 < x < p && TextAt(b, x) {
        var t := Scan(b, x).value.0;
        assert Resolve(b, p) == Some(x) && Head(b, x) == Some(Node(t, []));
        MeaningStep(b, p, d + 1);
        assert Meaning(b, p, d + 1).kids == [];
      }
    }
  }

  /** The tags that hold other items: references, arrays, hashes, objects.  Their children are the items that
      follow; those of a pointer are what it points at. */
  lemma MeansHolder(b: seq<byte>, p: nat, d: nat)
    requires p < |b| && Scan(b, p).Some?
    requires b[p] % 128 in {40, 42, 43, 44, 48, 50} || 64 <= b[p] % 128 <= 95
    ensures var (t, q) := Scan(b, p).value;
            t.Open? && Meaning(b, p, d + 1) == match Chain(b, q, Wants(t))
                                               case None => Bad
                                               case Some(ks) => Tree(t, Meanings(b, ks, d))
  {
    ReadsOther(b, p);
    hide Scan, Read, Wants, Chain, Meaning;
    var (t, q) := Scan(b, p).value;
    assert Resolve(b, p) == Some(p);
    if Chain(b, q, Wants(t)).Some? {
      assert Head(b, p) == Some(Node(t, Chain(b, q, Wants(t)).value));
      MeansNode(b, p, d);
    } else {
      MeansBad(b, p, d);
    }
  }

  lemma MeansPointer(b: seq<byte>, p: nat, d: nat)
    requires p < |b| && Scan(b, p).Some? && b[p] % 128 in {41, 45, 51}
    ensures var (x, q) := Read(b, p + 1).value;
            && (b[p] % 128 == 41 ==>
                Meaning(b, p, d + 1) == if 0 < x < p && b[x] % 128 != 63 then Tree(Open(40, 0), [Meaning(b, x, d)]) else Bad)
            && (b[p] % 128 != 41 ==>
                Meaning(b, p, d + 1) == if 0 < x < p && Scan(b, x).Some? && Scan(b, x).value.0.Text?
                                        then Tree(Open(if b[p] % 128 == 45 then 44 else 50, 0), [Meaning(b, x, d), Meaning(b, q, d)])
                                        else Bad)
  {
    ReadsOther(b, p);
    hide Scan, Read, Meaning;
    var (x, q) := Read(b, p + 1).value;
    assert Resolve(b, p) == Some(p);
    if Head(b, p).Some? {
      MeansNode(b, p, d);
      var ks := Head(b, p).value.kids;
      assert b[p] % 128 == 41 ==> ks == [x] && Meanings(b, ks, d) == [Meaning(b, x, d)];
      assert b[p] % 128 != 41 ==> ks == [x, q] && Meanings(b, ks, d) == [Meaning(b, x, d), Meaning(b, q, d)];
    } else {
      MeansBad(b, p, d);
    }
  }

  /** What several items mean. */
  function Meanings(b: seq<byte>, ks: seq<nat>, d: nat): (ts: seq<Tree>)
    ensures |ts| == |ks| && forall j :: 0 <= j < |ks| ==> ts[j] == Meaning(b, ks[j], d)
  {
    seq(|ks|, j requires 0 <= j < |ks| => Meaning(b, ks[j], d))
  }

  lemma MeansNode(b: seq<byte>, p: nat, d: nat)
    requires Resolve(b, p) == Some(p) && Head(b, p).Some?
    ensures Meaning(b, p, d + 1) == Tree(Head(b, p).value.shape, Meanings(b, Head(b, p).value.kids, d))
  {
    hide Scan, Head, Resolve;
    MeaningStep(b, p, d + 1);
    assert Meaning(b, p, d + 1).kids == Meanings(b, Head(b, p).value.kids, d);
  }

  lemma MeansBad(b: seq<byte>, p: nat, d: nat)
    requires Resolve(b, p) == Some(p) && Head(b, p).None?
    ensures Meaning(b, p, d + 1) == Bad
  {
  }
}
