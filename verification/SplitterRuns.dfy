/** A run of the splitter on a given document: with a limit of one byte every element is a chunk of its own. */
module SplitterRuns {
  import opened Varint
  import opened Wire
  import opened Mapping
  import opened Splitting
  import opened SplitterState
  import opened SplitterResult
  import opened Splitter
  import opened Tags

  /** An array of three small numbers. */
  const THREE: seq<byte> := [0, 0x43, 1, 2, 3]

  lemma ThreeTags()
    ensures Scan(THREE, 1) == Some((Open(64, 3), 2)) && Scan(THREE, 5) == None
    ensures forall k :: 2 <= k <= 4 ==> Scan(THREE, k) == Some((Leaf(k - 1, []), k + 1))
  {
  }

  lemma ThreePath(q: nat)
    ensures Path(THREE, 1, q) <==> 1 <= q <= 5
  {
    ThreeTags();
    hide Scan, Path;
    PathTo(THREE, 1, q);
    PathTo(THREE, 2, q);
    PathTo(THREE, 3, q);
    PathTo(THREE, 4, q);
    PathTo(THREE, 5, q);
  }

  lemma ThreeParse()
    ensures Parse(THREE, 1, [Item]) == Some(5) && Parse(THREE, 2, Items(3)) == Some(5)
  {
    ThreeTags();
    Follows(3, 0, 0);
    hide Scan;
    ParseItem(THREE, 1);
    assert Wants(Open(64, 3)) == Items(3);
    assert Parse(THREE, 5, Items(0)) == Some(5);
    Rest(THREE, 4, 5, 0);
    Rest(THREE, 3, 4, 1);
    Rest(THREE, 2, 3, 2);
  }

  lemma ThreeSplittable()
    ensures Splittable(THREE) && |Elements(THREE)| == 3
  {
    ThreeTags();
    ThreeParse();
    hide Scan, Path;
    forall q: nat | Path(THREE, 1, q) && Scan(THREE, q).Some?
      ensures TagFit(THREE, q)
    {
      ThreePath(q);
      assert Resolve(THREE, q) == Some(q);
    }
    RootFits(THREE);
  }

  /** A chunk of more than one element would be too large. */
  lemma OneEach(body: seq<byte>, front: nat, last: bool)
    requires WellSized(body, front, 1, last) && Parse(body, 1, [Item]) == Some(|body|)
    ensures |Decoded(Meaning(body, 1, 2))| == 1
  {
    var n := Scan(body, 2).value.0.count;
    hide Scan, Meaning, Parse;
    if n > 1 {
      Apart2(body, front, n);
    }
    TwoDeep(body, front, n);
  }

  /** Items behind the first begin behind it. */
  lemma Apart2(b: seq<byte>, p: nat, n: nat)
    requires n > 1 && Chain(b, p, Items(n)).Some?
    ensures Chain(b, p, Items(n)).value[n - 1] > p
  {
    ChainLast(b, p, n);
    hide Scan;
    assert Items(n - 1) != [];
  }

  lemma TwoDeep(body: seq<byte>, front: nat, n: nat)
    requires Scan(body, 1) == Some((Open(40, 0), 2)) && Scan(body, 2) == Some((Open(43, n), front))
    requires Chain(body, front, Items(n)).Some? && Parse(body, 1, [Item]).Some?
    ensures |Decoded(Meaning(body, 1, 2))| == n
  {
    ParseItem(body, 1);
    Tagged(body, 1);
    Tagged(body, 2);
    MeansHolder(body, 1, 1);
    MeansHolder(body, 2, 0);
    Follows(n, 0, 0);
    assert Wants(Open(40, 0)) == [Item] && Wants(Open(43, n)) == Items(n);
    hide Scan, Meaning, Parse, Wants, Chain;
    SplitterResult.OneChild(body, 2);
  }

  lemma Tagged(b: seq<byte>, p: nat)
    ensures Scan(b, p).Some? && Scan(b, p).value.0.Open? ==>
      p < |b| && (b[p] % 128 in {40, 42, 43, 44, 48, 50} || 64 <= b[p] % 128 <= 95)
  {
    if p < |b| {
      ReadsValue(b, p);
      ReadsOther(b, p);
    }
  }

  lemma {:induction false} GatheredSize(chunks: seq<seq<byte>>)
    requires forall k :: 0 <= k < |chunks| ==> |Decoded(Meaning(chunks[k], 1, 2))| == 1
    ensures |Gathered(chunks, 0)| == |chunks|
    decreases |chunks|
  {
    hide Meaning, Decoded;
    if chunks != [] {
      GatheredSize(chunks[..|chunks| - 1]);
    }
  }

  /** Three elements in chunks of one make three chunks. */
  lemma AreThree(chunks: seq<seq<byte>>)
    requires |Gathered(chunks, 0)| == 3
    requires forall k :: 0 <= k < |chunks| ==> Parse(chunks[k], 1, [Item]) == Some(|chunks[k]|)
    requires forall k :: 0 <= k < |chunks| ==> WellSized(chunks[k], 4, 1, k == |chunks| - 1)
    ensures |chunks| == 3
  {
    hide Parse, Meaning, Gathered, WellSized, Decoded;
    forall k | 0 <= k < |chunks|
      ensures |Decoded(Meaning(chunks[k], 1, 2))| == 1
    {
      OneEach(chunks[k], 4, k == |chunks| - 1);
    }
    GatheredSize(chunks);
  }

  method ThreeChunks() returns (ok: bool, chunks: seq<seq<byte>>)
    ensures ok && |chunks| == 3
  {
    hide *;
    ThreeFacts();
    ok, chunks := SplitDocument(THREE, 1);
    assert |Gathered(chunks, 0)| == |TreesAt(THREE, Elements(THREE), 0)| == 3;
    AreThree(chunks);
  }

  lemma ThreeFacts()
    ensures Splittable(THREE) && |Elements(THREE)| == 3 && MostBytes(THREE) < WORD
    ensures |TreesAt(THREE, Elements(THREE), 0)| == 3 && 3 + |Write(3)| == 4
  {
    ThreeSplittable();
    SmallEnough(THREE);
    hide Splittable, Elements, MostBytes;
  }
}
