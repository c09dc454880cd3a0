/** A document with every kind of link that meets the conditions under which the main results hold. */
module Examples {
  import opened Varint
  import opened Wire
  import opened Mapping
  import opened MergerState
  import opened Splitting
  import opened SplitterResult
  import opened Tags

  /** An array of a flagged empty array, a REFP and an ALIAS to it, a string, a COPY of that, an object, and an
      OBJECTV of the same class. */
  const LINKED: seq<byte> := [0, 0x47, 0xC0, 41, 2, 46, 2, 0x61, 97, 47, 7, 44, 0x61, 65, 1, 45, 12, 2]

  lemma LinkedTexts()
    ensures Scan(LINKED, 7) == Some((Text(false, [97]), 9)) && Scan(LINKED, 12) == Some((Text(false, [65]), 14))
    ensures Scan(LINKED, 14) == Some((Leaf(1, []), 15)) && Scan(LINKED, 17) == Some((Leaf(2, []), 18))
  {
    hide Scan, Read;
    ReadsValue(LINKED, 7);
    ReadsValue(LINKED, 12);
    ReadsValue(LINKED, 14);
    ReadsValue(LINKED, 17);
    assert LINKED[8..9] == [97] && LINKED[13..14] == [65];
  }

  lemma LinkedTags()
    ensures Scan(LINKED, 1) == Some((Open(ARRAYREF, 7), 2)) && Scan(LINKED, 2) == Some((Open(ARRAYREF, 0), 3))
    ensures Scan(LINKED, 11) == Some((Open(OBJECT, 0), 12)) && Scan(LINKED, 18) == None
  {
    EndScan(LINKED, 18);
    hide Scan, Read;
    ReadsOther(LINKED, 1);
    ReadsOther(LINKED, 2);
    ReadsOther(LINKED, 11);
  }

  lemma LinkedReads()
    ensures Read(LINKED, 4) == Some((2, 5)) && Read(LINKED, 6) == Some((2, 7))
    ensures Read(LINKED, 10) == Some((7, 11)) && Read(LINKED, 16) == Some((12, 17))
  {
  }

  lemma LinkedLinks()
    ensures Scan(LINKED, 3) == Some((Refer(2), 5)) && Scan(LINKED, 5) == Some((Alias(2), 7))
    ensures Scan(LINKED, 9) == Some((Copy(7), 11)) && Scan(LINKED, 15) == Some((ObjectV(OBJECT, 12), 17))
  {
    LinkedReads();
    hide Scan, Read;
    ReadsOther(LINKED, 3);
    ReadsOther(LINKED, 5);
    ReadsOther(LINKED, 9);
    ReadsOther(LINKED, 15);
  }

  lemma LinkedPath(q: nat)
    ensures Path(LINKED, 1, q) <==> q in {1, 2, 3, 5, 7, 9, 11, 12, 14, 15, 17, 18}
  {
    LinkedTags();
    LinkedTexts();
    LinkedLinks();
    hide Scan, Path;
    PathTo(LINKED, 1, q);
    PathTo(LINKED, 2, q);
    PathTo(LINKED, 3, q);
    PathTo(LINKED, 5, q);
    PathTo(LINKED, 7, q);
    PathTo(LINKED, 9, q);
    PathTo(LINKED, 11, q);
    PathTo(LINKED, 12, q);
    PathTo(LINKED, 14, q);
    PathTo(LINKED, 15, q);
    PathTo(LINKED, 17, q);
    PathTo(LINKED, 18, q);
  }

  lemma LinkedParse()
    ensures Parse(LINKED, 1, [Item]) == Some(18)
  {
    LinkedTags();
    LinkedTexts();
    LinkedLinks();
    Objects();
    hide Scan, Parse, Items, LINKED;
    ParseItem(LINKED, 1);
    Follows(7, 0, 0);
    Rest(LINKED, 9, 11, 2);
    Rest(LINKED, 7, 9, 3);
    Rest(LINKED, 5, 7, 4);
    Rest(LINKED, 3, 5, 5);
    Rest(LINKED, 2, 3, 6);
    assert Wants(Open(ARRAYREF, 7)) == Items(7);
  }

  /** The two objects at the end. */
  lemma Objects()
    ensures Parse(LINKED, 11, Items(2)) == Some(18)
  {
    LinkedTags();
    LinkedTexts();
    LinkedLinks();
    hide Scan, LINKED;
    ParseItem(LINKED, 17);
    ParseItem(LINKED, 15);
    ParseObject(LINKED, 11);
    ParseItem(LINKED, 14);
    assert Parse(LINKED, 15, []) == Some(15) && Parse(LINKED, 18, []) == Some(18);
    hide Parse;
    ParseSplit(LINKED, 11, [Item], [Item]);
    assert Items(2) == [Item] + [Item];
  }

  /** The Perl merger takes it, and so does the splitter. */
  lemma LinkedTaken()
    ensures Mergeable(LINKED) && Splittable(LINKED) && Path(LINKED, 1, |LINKED|) && Parse(LINKED, 1, [Item]) == Some(|LINKED|)
  {
    LinkedTags();
    LinkedTexts();
    LinkedLinks();
    LinkedParse();
    LinkedPath(18);
    hide Scan, Path, Parse, BorrowedAt;
    forall q: nat | Path(LINKED, 1, q) && Scan(LINKED, q).Some?
      ensures TagSound(LINKED, q) && TagFit(LINKED, q)
    {
      LinkedTag(q);
    }
    assert Root(LINKED).Some?;
  }

  lemma LinkedTag(q: nat)
    requires Path(LINKED, 1, q) && Scan(LINKED, q).Some?
    ensures TagSound(LINKED, q) && TagFit(LINKED, q)
  {
    hide Scan, Path;
    LinkedTags();
    LinkedTexts();
    LinkedLinks();
    LinkedPath(q);
    LinkedPath(1);
    LinkedPath(2);
    LinkedPath(7);
    LinkedPath(12);
  }
}
