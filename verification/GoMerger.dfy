/** The Go merger: one loop over the tags of a document, with a stack of counters instead of recursion. */
module GoMerger {
  import opened Varint
  import opened VarintIO
  import opened Wire
  import opened Mapping
  import opened QuickSort
  import opened MergerState
  import opened MergerResult
  import opened GoMergeState
  import opened GoForms
  import GoDecoder

  /** How an operation ends.  `Panic` stands for a run-time error of the language, an index out of range. */
  datatype Ending = Ok | Error | Panic | NoMemory

  class Merger {
    const dedupeStrings: bool
    const keepFlat: bool            // the array on top of each document is merged element by element

    var dbuf: seq<byte>             // the document in hand; byte 0 is the byte before it
    var didx: nat
    var mbuf: seq<byte>             // the output, likewise
    var stack: seq<nat>
    var trackIdxs: seq<nat>
    var trackTable: map<nat, int>
    var strTable: map<seq<byte>, nat>
    var objTable: map<seq<byte>, nat>
    var length: nat
    var finished: bool

    ghost var honest: bool          // every document so far could be taken, or left no trace
    ghost var at: nat               // where the items that are asked for begin
    ghost var base: nat
    ghost var marks: set<nat>
    ghost var kept: set<nat>
    ghost var done: Ledger
    ghost var m: map<nat, nat>
    ghost var img: map<nat, nat>
    ghost var from: Origins         // where the strings of the tables were first met

    constructor (dedupeStrings: bool, keepFlat: bool)
      ensures Resting() && !finished && honest && done.docs == []
      ensures this.dedupeStrings == dedupeStrings && this.keepFlat == keepFlat
      ensures mbuf == PRELUDE && length == 0 && strTable == map[] && objTable == map[]
    {
      this.dedupeStrings, this.keepFlat := dedupeStrings, keepFlat;
      dbuf, didx, mbuf := [], 0, PRELUDE;
      stack, trackIdxs, trackTable, strTable, objTable := [], [], map[], map[], map[];
      length, finished := 0, false;
      honest, at, base, marks, kept, done, m, img := true, 1, FIRST, {}, {}, Ledger(PRELUDE, []), map[], map[];
      from := Origins(map[], map[]);
      new;
      CoreEmpty(Loose);
    }

    /** Between documents. */
    ghost predicate Resting()
      reads `mbuf, `marks, `kept, `done, `strTable, `objTable, `from, `length, `finished, `honest
    {
      !finished ==> FIRST <= |mbuf| && (honest ==> AtRest())
    }

    ghost predicate AtRest()
      reads `mbuf, `marks, `kept, `done, `strTable, `objTable, `from, `length
    {
      && Core(mbuf, |mbuf|, marks, kept, done, [], [], Loose) && kept == marks && done.body == mbuf
      && Shelved(keepFlat, dedupeStrings, mbuf, marks, done.docs, strTable, objTable, from)
      && length == Total(done.docs, |done.docs|)
    }

    /** The tables name nothing that lies behind the output. */
    ghost predicate Inside()
      reads `mbuf, `strTable, `objTable
    {
      Within(strTable, |mbuf|) && Within(objTable, |mbuf|)
    }

    /** The document has been translated up to i; its translation ends `buf`. */
    ghost predicate Held(i: nat, buf: seq<byte>, str: map<seq<byte>, nat>, obj: map<seq<byte>, nat>)
      reads `dbuf, `trackTable, `at, `base, `marks, `kept, `done, `m, `img, `from
    {
      && Takeable(dbuf, keepFlat) && Header(dbuf, keepFlat).Some? && Header(dbuf, keepFlat).value.0 == at
      && State(dbuf, at, i, buf, base, marks, kept, done, m, img)
      && Books(dbuf, keepFlat, dedupeStrings, buf, marks, done.docs, img, str, obj, from, trackTable)
      && GoDocs(done.docs, keepFlat)
    }

    ghost predicate Working(i: nat)
      reads `dbuf, `mbuf, `trackTable, `strTable, `objTable, `at, `base, `marks, `kept, `done, `m, `img, `from
    {
      Held(i, mbuf, strTable, objTable) && !NameAt(dbuf, i)
    }

    /** The string at i is looked up. */
    ghost predicate Asked(i: nat)
      reads `dbuf
    {
      Looked(dbuf, keepFlat, dedupeStrings, i)
    }

    /** The tag at i has been dealt with; a COPY of it is to name `rel`. */
    ghost predicate Dealt(i: nat, rel: nat)
      reads `dbuf, `didx, `mbuf, `trackTable, `strTable, `objTable, `at, `base, `marks, `kept, `done, `m, `img, `from
    {
      Held(didx, mbuf, strTable, objTable) && (TextAt(dbuf, i) ==> i in img && img[i] == rel)
    }

    /** The tag at i has been dealt with, up to where the document is read now, and opens the places w. */
    ghost predicate Moved(i: nat, rel: nat, w: Option<seq<Want>>)
      reads `dbuf, `didx, `mbuf, `trackTable, `strTable, `objTable, `at, `base, `marks, `kept, `done, `m, `img, `from
    {
      Dealt(i, rel) && Opened(dbuf, i, didx, w)
    }

    /** What every case starts from. */
    ghost predicate Ready(i: nat)
      reads `dbuf, `didx, `mbuf, `trackTable, `strTable, `objTable, `at, `base, `marks, `kept, `done, `m, `img, `from, `honest
    {
      0 < i == didx < |dbuf| && (honest ==> Working(i) && Due(i))
    }

    /** There is a tag at i, and if it is an object's, a class name behind it. */
    ghost predicate Due(i: nat)
      reads `dbuf
    {
      && Scan(dbuf, i).Some? && !Scan(dbuf, i).value.0.Other?
      && (IsObject(Scan(dbuf, i).value.0) ==>
          Scan(dbuf, i).value.1 == i + 1 && TextAt(dbuf, i + 1) && NameMet(dbuf, keepFlat, i + 1))
    }

    lemma WorkingAt(i: nat)
      requires Working(i)
      ensures 1 <= at <= i <= |dbuf| <= IV_MAX && Path(dbuf, 1, i) && Sound(dbuf) && Takeable(dbuf, keepFlat)
      ensures Scan(dbuf, i).Some? ==> TagTakeable(dbuf, i) && TagSound(dbuf, i)
      ensures i !in img && !NameAt(dbuf, i)
    {
      hide Scan, Path, Sound, TagTakeable, TagSound, Books;
      StateAt(dbuf, at, i, mbuf, base, marks, kept, done, m, img);
      if Scan(dbuf, i).Some? {
        TakeableAt(i);
      }
    }

    lemma TakeableAt(i: nat)
      requires Takeable(dbuf, keepFlat) && Path(dbuf, 1, i) && Scan(dbuf, i).Some?
      ensures TagTakeable(dbuf, i) && TagSound(dbuf, i)
    {
      hide Scan, Path, TagTakeable, TagSound;
    }

    // ----- the ghost side of one tag -----

    /** The bytes of the tag at i have been copied, and the string recorded if it is looked up. */
    ghost method Copied(i: nat, was: seq<byte>, str0: map<seq<byte>, nat>)
      requires Scan(dbuf, i).Some? && Plain(Scan(dbuf, i).value.0) && didx == Scan(dbuf, i).value.1
      requires mbuf == was + dbuf[i..didx] && !NameAt(dbuf, i)
      requires Asked(i) ==> Scan(dbuf, i).value.0.content !in str0 && strTable == str0[Scan(dbuf, i).value.0.content := |was|]
      requires !Asked(i) ==> strTable == str0
      requires Held(i, was, str0, objTable)
      modifies `marks, `m, `img, `from
      ensures Dealt(i, |was|)
    {
      hide Scan, Path, Sound, State, Plain, Takeable, Books, Looked, NameAt, Header;
      LookedText(dbuf, keepFlat, dedupeStrings, i);
      CopiedStep(dbuf, keepFlat, dedupeStrings, at, i, was, mbuf, base, marks, kept, done, m, img, str0, objTable, from, trackTable);
      if Asked(i) {
        from := from.(strings := from.strings[Scan(dbuf, i).value.0.content := (dbuf, i)]);
      }
      marks, m, img := marks + {|was|}, m[didx := |mbuf|], img[i := |was|];
    }

    /** A string has been written as a COPY of the one the table names. */
    ghost method Deduped(i: nat, was: seq<byte>, v: nat)
      requires TextAt(dbuf, i) && didx == Scan(dbuf, i).value.1 && Asked(i) && !NameAt(dbuf, i)
      requires Scan(dbuf, i).value.0.content in strTable && strTable[Scan(dbuf, i).value.0.content] == v
      requires mbuf == was + [COPY] + Write(v)
      requires Held(i, was, strTable, objTable)
      modifies `marks, `m, `img
      ensures Dealt(i, v)
    {
      hide Scan, Path, Sound, State, TextAt, Takeable, Books, Looked, NameAt, Header;
      DedupedStep(dbuf, keepFlat, dedupeStrings, at, i, was, mbuf, base, marks, kept, done, m, img, strTable, objTable, from, trackTable, v);
      marks, m, img := marks + {|was|}, m[didx := |mbuf|], img[i := v];
    }

    /** A COPY has been written with its new offset. */
    ghost method Linked(i: nat, was: seq<byte>, h: byte, v: nat)
      requires Scan(dbuf, i).Some? && Scan(dbuf, i).value.0.Copy? && didx == Scan(dbuf, i).value.1 && h % HIGH == COPY
      requires Scan(dbuf, i).value.0.target in img && img[Scan(dbuf, i).value.0.target] == v && v < |was|
      requires mbuf == was + [h] + Write(v)
      requires Held(i, was, strTable, objTable)
      modifies `marks, `m, `img
      ensures Dealt(i, |was|)
    {
      hide Scan, Path, Sound, State, Takeable, Books, Header;
      LinkedStep(dbuf, keepFlat, dedupeStrings, at, i, was, mbuf, base, marks, kept, done, m, img, strTable, objTable, from, trackTable, h, v);
      marks, m, img := marks + {|was|}, m[didx := |mbuf|], img[i := |was|];
    }

    /** An object and its class name have been copied, and the class name recorded. */
    ghost method ObjectCopied(i: nat, was: seq<byte>, obj0: map<seq<byte>, nat>, str: seq<byte>, rel: nat)
      requires ObjectIn(dbuf, keepFlat, i, didx, str) && mbuf == was + dbuf[i..didx]
      requires str !in obj0 && objTable == obj0[str := |was| + 1]
      requires Held(i, was, strTable, obj0)
      modifies `marks, `m, `img, `from
      ensures Dealt(i, rel)
    {
      hide Scan, Path, Sound, State, Takeable, Books, Header, TextAt, ObjectIn;
      ObjectIsNoText(dbuf, keepFlat, i, didx, str);
      ObjectCopiedStep(dbuf, keepFlat, dedupeStrings, at, i, didx, str, was, mbuf, base, marks, kept, done, m, img, strTable, obj0, from,
                       trackTable);
      from := from.(classes := from.classes[str := (dbuf, i + 1)]);
      marks, m, img := marks + {|was|} + {|was| + 1}, m[didx := |mbuf|], img[i := |was|][i + 1 := |was| + 1];
    }

    /** An object with a class name seen before has been written as an OBJECTV. */
    ghost method ObjectDeduped(i: nat, was: seq<byte>, str: seq<byte>, v: nat, rel: nat)
      requires ObjectIn(dbuf, keepFlat, i, didx, str) && str in objTable && objTable[str] == v
      requires AsObjectV(dbuf, i, was, mbuf, v)
      requires Held(i, was, strTable, objTable)
      modifies `marks, `m, `img
      ensures Dealt(i, rel)
    {
      hide Scan, Path, Sound, State, Takeable, Books, Header, TextAt, ObjectIn, AsObjectV;
      ObjectIsNoText(dbuf, keepFlat, i, didx, str);
      ghost var img' := img[i := |was|][i + 1 := v];
      ObjectDedupedStep(dbuf, keepFlat, dedupeStrings, at, i, didx, str, was, mbuf, base, marks, kept, done, m, img, strTable, objTable, from,
                        trackTable, v, img');
      marks, m, img := marks + {|was|}, m[didx := |mbuf|], img';
    }

    // ----- one tag -----

    /** Appends the next n bytes of the document. */
    method Take(n: nat) returns (r: Ending)
      modifies `mbuf, `didx
      ensures r == if old(didx) + n <= |dbuf| then Ok else Panic
      ensures r.Ok? ==> didx == old(didx) + n && mbuf == old(mbuf) + dbuf[old(didx)..didx]
      ensures !r.Ok? ==> mbuf == old(mbuf)
    {
      if didx + n > |dbuf| {
        return Panic;
      }
      mbuf := mbuf + dbuf[didx..didx + n];
      didx := didx + n;
      return Ok;
    }

    method AppendTagVarint(tag: byte, v: nat)
      modifies `mbuf
      ensures mbuf == old(mbuf) + [tag] + Write(v)
    {
      var n: nat, s: seq<byte> := v, [tag];
      while n >= HIGH
        invariant s + Write(n) == [tag] + Write(v)
      {
        s := s + [n % HIGH + HIGH];
        n := n / HIGH;
      }
      mbuf := mbuf + (s + [n]);
      assert s + [n] == [tag] + Write(v);
      assert old(mbuf) + ([tag] + Write(v)) == old(mbuf) + [tag] + Write(v);
    }

    /** Numbers, floats, constants, padding and references: a tag with a payload of known size. */
    method MergePlain(n: nat) returns (r: Ending)
      requires Ready(didx) && 0 < n
      requires honest ==> Plain(Scan(dbuf, didx).value.0) && Scan(dbuf, didx).value.1 == didx + n
      requires honest && TextAt(dbuf, didx) ==> !Long(dbuf[didx] % HIGH)
      modifies `mbuf, `didx, `marks, `m, `img, `from
      ensures r == if old(didx) + n <= |dbuf| then Ok else Panic
      ensures r.Ok? ==> didx == old(didx) + n && (honest ==> Dealt(old(didx), |old(mbuf)|))
      ensures r.Ok? ==> mbuf == old(mbuf) + dbuf[old(didx)..didx]
      ensures old(mbuf) <= mbuf
    {
      hide Scan, Path, Sound, State, Plain, TextAt, Takeable, Books, Header, Dealt;
      ghost var i, was := didx, mbuf;
      if honest {
        NotAsked(i);
      }
      r := Take(n);
      if honest && r.Ok? {
        Copied(i, was, strTable);
      }
    }

    lemma NotAsked(i: nat)
      ensures Asked(i) ==> TextAt(dbuf, i) && i < |dbuf| && Long(dbuf[i] % HIGH)
    {
      Beyond(dbuf, i);
      hide Scan;
    }

    /** A tag followed by one varint, copied. */
    method MergeVarint() returns (r: Ending, n: iv)
      requires Ready(didx)
      requires honest ==> Plain(Scan(dbuf, didx).value.0) && Read(dbuf, didx + 1).Some? && !TextAt(dbuf, didx)
      requires honest ==> Scan(dbuf, didx).value.1 == Read(dbuf, didx + 1).value.1
      modifies `mbuf, `didx, `marks, `m, `img, `from
      ensures r.Ok? <==> Read(dbuf, old(didx) + 1).Some?
      ensures r.Ok? ==> didx == Read(dbuf, old(didx) + 1).value.1 && n == Signed(Read(dbuf, old(didx) + 1).value.0)
      ensures r.Ok? ==> old(didx) < didx <= |dbuf| && (honest ==> Dealt(old(didx), |old(mbuf)|))
      ensures old(mbuf) <= mbuf
    {
      hide Scan, Path, Sound, State, Plain, TextAt, Takeable, Books, Working, Dealt, Due;
      var ok, sz;
      ok, n, sz := GoDecoder.Varintdecode(dbuf, didx + 1);
      if !ok {
        return Error, n;
      }
      r := MergePlain(sz + 1);
    }

    /** A string of `length` bytes in all, whose content starts at `start`. */
    method MergeString(start: nat, length: nat, dedupe: bool) returns (r: Ending, rel: nat)
      requires Ready(didx) && didx < start <= didx + length <= |dbuf|
      requires honest ==> TextAt(dbuf, didx) && Scan(dbuf, didx).value.1 == didx + length && (Asked(didx) <==> dedupe)
      requires honest ==> Scan(dbuf, didx).value.0.content == dbuf[start..didx + length]
      modifies `mbuf, `didx, `strTable, `marks, `m, `img, `from
      ensures r.Ok? && didx == old(didx) + length && (honest ==> Dealt(old(didx), rel))
      ensures !dedupe ==> rel == |old(mbuf)| && strTable == old(strTable)
      ensures var val := dbuf[start..old(didx) + length];
              mbuf == old(mbuf) + (if dedupe && val in old(strTable) then [COPY] + Write(old(strTable)[val])
                                   else dbuf[old(didx)..old(didx) + length])
              && strTable == if dedupe && val !in old(strTable) then old(strTable)[val := |old(mbuf)|] else old(strTable)
    {
      hide Scan, Path, Sound, State, Plain, Takeable, Books, Header, Looked, NameAt, Dealt;
      ghost var i, was, str0 := didx, mbuf, strTable;
      rel := |mbuf|;
      r := Ok;
      var val := dbuf[start..didx + length];
      if dedupe && val in strTable {
        rel := strTable[val];
        AppendTagVarint(COPY, rel);
        assert mbuf == was + ([COPY] + Write(rel));
        didx := didx + length;
        if honest {
          Deduped(i, was, rel);
        }
        return;
      }
      if dedupe {
        strTable := strTable[val := rel];
      }
      r := Take(length);
      if honest {
        TextPlain(dbuf, i);
        Copied(i, was, str0);
      }
    }

    /** What is written for the string at i, which ends at e, and what the table of strings becomes.  Empty
        short strings and short strings of one byte are never deduplicated. */
    ghost function ForText(i: nat, e: nat, dedupe: bool, table: map<seq<byte>, nat>): seq<byte>
      requires i < e <= |dbuf| && TextAt(dbuf, i)
      reads `dbuf
    {
      var s := Scan(dbuf, i).value.0.content;
      if dedupe && Long(dbuf[i] % HIGH) && s in table then [COPY] + Write(table[s]) else dbuf[i..e]
    }

    ghost function TableWith(i: nat, dedupe: bool, table: map<seq<byte>, nat>, here: nat): map<seq<byte>, nat>
      requires i < |dbuf| && TextAt(dbuf, i)
      reads `dbuf
    {
      var s := Scan(dbuf, i).value.0.content;
      if dedupe && Long(dbuf[i] % HIGH) && s !in table then table[s := here] else table
    }

    /** A string, written from i to where the document is read now. */
    ghost predicate TextDone(i: nat, dedupe: bool, was: seq<byte>, str0: map<seq<byte>, nat>)
      reads `dbuf, `didx, `mbuf, `strTable
    {
      && i < didx <= |dbuf| && TextAt(dbuf, i) && didx == Scan(dbuf, i).value.1
      && mbuf == was + ForText(i, didx, dedupe, str0) && strTable == TableWith(i, dedupe, str0, |was|)
    }

    /** A string that is not too long. */
    ghost predicate Fits(i: nat)
      reads `dbuf
    {
      TextAt(dbuf, i) && |Scan(dbuf, i).value.0.content| <= MAX_STRING
    }

    lemma FitsHere(i: nat)
      requires Working(i)
      ensures TextAt(dbuf, i) ==> Fits(i)
    {
      hide Scan, Path, Sound, State;
      WorkingAt(i);
    }

    /** A string with its length in the tag or in a varint behind it. */
    method MergeText(tag: byte, dedupe: bool) returns (r: Ending, rel: nat)
      requires Ready(didx) && tag == dbuf[didx] % HIGH && (tag == BINARY || tag == STR_UTF8 || tag >= SHORT_BINARY)
      requires honest && Long(tag) ==> (Asked(didx) <==> dedupe)
      modifies `mbuf, `didx, `strTable, `marks, `m, `img, `from
      ensures honest ==> r.Ok? && TextAt(dbuf, old(didx))
      ensures r.Ok? ==> old(didx) < didx && (honest ==> Moved(old(didx), rel, Some([])))
      ensures r.Ok? && !dedupe ==> rel == |old(mbuf)|
      ensures old(Fits(didx)) ==> r.Ok? && TextDone(old(didx), dedupe, old(mbuf), old(strTable))
      ensures old(mbuf) <= mbuf && Grown(old(strTable), strTable, |old(mbuf)|)
    {
      hide Scan, Path, Sound, State, Plain, Takeable, Books, Working, Dealt, Due, Looked;
      if honest {
        TextHere(didx);
      }
      TextShape(didx);
      if tag == SHORT_BINARY || tag == SHORT_BINARY + 1 {
        rel := |mbuf|;
        r := MergePlain(tag - SHORT_BINARY + 1);
      } else {
        r, rel := MergeLong(tag, dedupe);
      }
    }

    /** The string at i, as its tag says. */
    lemma TextShape(i: nat)
      ensures TextAt(dbuf, i) ==>
        var (t, q) := Scan(dbuf, i).value;
        && i < |dbuf| && i < q <= |dbuf| && Plain(t) && Opened(dbuf, i, q, Some([])) && LinkList(t) == []
        && (dbuf[i] % HIGH >= SHORT_BINARY ==>
            q == i + 1 + (dbuf[i] % HIGH - SHORT_BINARY) && t.content == dbuf[i + 1..q])
    {
      Beyond(dbuf, i);
      if TextAt(dbuf, i) {
        TextCase(dbuf, i);
        hide Scan;
        TextPlain(dbuf, i);
      }
    }

    lemma TextHere(i: nat)
      requires Working(i) && Due(i) && i < |dbuf|
      requires dbuf[i] % HIGH == BINARY || dbuf[i] % HIGH == STR_UTF8 || dbuf[i] % HIGH >= SHORT_BINARY
      ensures TextAt(dbuf, i) && Fits(i)
    {
      TextCase(dbuf, i);
      hide Scan;
      FitsHere(i);
    }

    method MergeLong(tag: byte, dedupe: bool) returns (r: Ending, rel: nat)
      requires Ready(didx) && tag == dbuf[didx] % HIGH && (tag == BINARY || tag == STR_UTF8 || tag > SHORT_BINARY + 1)
      requires honest ==> Fits(didx) && (Asked(didx) <==> dedupe)
      modifies `mbuf, `didx, `strTable, `marks, `m, `img, `from
      ensures honest ==> r.Ok?
      ensures r.Ok? ==> old(didx) < didx && (honest ==> Dealt(old(didx), rel) && didx == Scan(dbuf, old(didx)).value.1)
      ensures r.Ok? && !dedupe ==> rel == |old(mbuf)|
      ensures old(Fits(didx)) ==> r.Ok? && TextDone(old(didx), dedupe, old(mbuf), old(strTable))
      ensures old(mbuf) <= mbuf && Grown(old(strTable), strTable, |old(mbuf)|)
    {
      hide Scan, Path, Sound, State, Plain, Takeable, Books, Working, Dealt, Due, Looked, Fits, Write, NameAt;
      rel := |mbuf|;
      var sz, length;
      r, sz, length := TextLength(tag);
      if !r.Ok? {
        return;
      }
      FitsText(didx);
      r, rel := MergeString(didx + sz + 1, length, dedupe);
    }

    lemma FitsText(i: nat)
      ensures Fits(i) ==> TextAt(dbuf, i)
    {
    }

    /** How many bytes the length of the string takes, and how many the whole string. */
    method TextLength(tag: byte) returns (r: Ending, sz: nat, length: nat)
      requires 0 < didx < |dbuf| && tag == dbuf[didx] % HIGH && (tag == BINARY || tag == STR_UTF8 || tag > SHORT_BINARY + 1)
      ensures r.Ok? ==> sz < length && didx + length <= |dbuf|
      ensures Fits(didx) ==>
        && r.Ok? && Scan(dbuf, didx).value.1 == didx + length
        && Scan(dbuf, didx).value.0.content == dbuf[didx + sz + 1..didx + length]
    {
      hide Scan, Read;
      if TextAt(dbuf, didx) {
        TextCase(dbuf, didx);
      }
      var ln: iv := 0;
      sz, length := 0, 0;
      if tag > SHORT_BINARY {
        ln := tag - SHORT_BINARY;
      } else {
        var ok;
        ok, ln, sz := GoDecoder.Varintdecode(dbuf, didx + 1);
        if !ok {
          return Error, sz, length;
        }
      }
      if ln < 0 || ln > MAX_STRING || didx + sz + ln + 1 > |dbuf| {
        return Error, sz, length;
      }
      return Ok, sz, sz + ln + 1;
    }

    // ----- links -----

    /** What the links of the tag at i name has been found. */
    ghost predicate LinksFound(i: nat)
      reads `dbuf, `trackTable
    {
      Scan(dbuf, i).Some? && forall x :: x in Links(Scan(dbuf, i).value.0) ==> x in trackTable && trackTable[x] >= 0
    }

    /** Of the tags with offsets, only COPY is in what the merger can take. */
    lemma CopyOnly(i: nat, tag: nat)
      requires Working(i) && Scan(dbuf, i).Some? && i < |dbuf| && tag == dbuf[i] % HIGH
      requires tag == COPY || tag == REFP || tag == ALIAS || tag == OBJECTV || tag == OBJECTV_FREEZE
      ensures tag == COPY && Read(dbuf, i + 1).Some? && Scan(dbuf, i).value.0.Copy?
      ensures Scan(dbuf, i) == Some((Copy(Read(dbuf, i + 1).value.0), Read(dbuf, i + 1).value.1))
      ensures var x := Read(dbuf, i + 1).value.0; x < i && x <= IV_MAX && TextAt(dbuf, x)
      ensures Opened(dbuf, i, Scan(dbuf, i).value.1, Some([])) && Links(Scan(dbuf, i).value.0) == {Read(dbuf, i + 1).value.0}
    {
      hide Path, Sound, State, Books;
      WorkingAt(i);
      LinkScan(dbuf, i, tag);
      hide Scan;
    }

    /** What the table says of the string at x is right. */
    lemma CopyKnown(i: nat, x: nat)
      requires Working(i) && TextAt(dbuf, x) && x in trackTable && trackTable[x] >= 0
      ensures x in img && img[x] == trackTable[x] && img[x] < |mbuf|
    {
      hide Scan, Path, Sound, TextAt, Takeable, TableOk, State, Looks, AllLook, OriginsIn;
      StateAt(dbuf, at, i, mbuf, base, marks, kept, done, m, img);
    }

    /** A COPY; the other tags with offsets are dealt with likewise, but are outside what is proved. */
    method MergeLink(tag: byte) returns (r: Ending)
      requires Ready(didx) && tag == dbuf[didx] % HIGH
      requires tag == COPY || tag == REFP || tag == ALIAS || tag == OBJECTV || tag == OBJECTV_FREEZE
      modifies `mbuf, `didx, `stack, `marks, `m, `img
      ensures r.Ok? ==> old(didx) < didx && |old(stack)| <= |stack|
      ensures honest && r.Ok? ==> Moved(old(didx), |old(mbuf)|, Some([])) && stack == old(stack)
      ensures honest ==> (r.Ok? <==> LinksFound(old(didx))) && !TextAt(dbuf, old(didx)) && !IsObject(Scan(dbuf, old(didx)).value.0)
      ensures Fronts(old(mbuf), mbuf) && (honest ==> old(mbuf) <= mbuf)
    {
      hide Path, Scan, Sound, State, Plain, Takeable, Books, Fronts, Links, Header;
      FrontsSelf(mbuf);
      ghost var i, was := didx, mbuf;
      if honest {
        CopyOnly(i, tag);
      }
      var ok, offset, sz := GoDecoder.Varintdecode(dbuf, didx + 1);
      if !ok {
        return Error;
      }
      if offset < 0 || offset !in trackTable || trackTable[offset] < 0 {
        return Error;
      }
      var target := trackTable[offset];
      var h := dbuf[didx];
      if honest {
        CopyKnown(i, offset);
      }
      AppendTagVarint(h, target);
      didx := didx + sz + 1;
      assert mbuf == was + ([h] + Write(target));
      FrontsMore(was, [h] + Write(target));
      if tag == ALIAS || tag == REFP {
        if target >= |mbuf| {
          return Panic;
        }
        ghost var sent := mbuf;
        RaiseFlag(target);
        FrontsOn(was, sent, mbuf);
      } else if tag == OBJECTV || tag == OBJECTV_FREEZE {
        stack := stack + [1];
      }
      if honest {
        Linked(i, was, h, target);
      }
      return Ok;
    }

    method RaiseFlag(x: nat)
      requires x < |mbuf|
      modifies `mbuf
      ensures Fronts(old(mbuf), mbuf)
    {
      mbuf := mbuf[x := if mbuf[x] < HIGH then mbuf[x] + HIGH else mbuf[x]];
    }

    // ----- what holds further items -----

    /** An array or a hash with its count in a varint. */
    method MergeGroup(tag: byte) returns (r: Ending, ghost w: Option<seq<Want>>)
      requires Ready(didx) && tag == dbuf[didx] % HIGH && (tag == ARRAY || tag == HASH) && stack != []
      modifies `mbuf, `didx, `stack, `marks, `m, `img, `from
      ensures honest ==> r.Ok? && IsPlain(old(didx))
      ensures r.Ok? ==> old(didx) < didx && |old(stack)| <= |stack|
      ensures honest && r.Ok? ==> Moved(old(didx), |old(mbuf)|, w) && Pushed(old(stack), stack, w)
      ensures old(mbuf) <= mbuf
    {
      hide Path, Scan, Sound, State, Plain, Takeable, Books, Working, Dealt, Frame, Wants, Read;
      ghost var i := didx;
      w := None;
      if honest {
        GroupCase(dbuf, i);
        PlainCase(i);
        w := Some(Wants(Scan(dbuf, i).value.0));
        HashBound(i);
      }
      var n;
      r, n := MergeVarint();
      if !r.Ok? {
        return;
      }
      if n < 0 {
        return Error, w;
      }
      var c := (if tag == HASH then 2 * n else n) % UNSIGNED;
      stack := stack + [if tag == HASH && c < KEYS then c + KEYS else c];
      if honest {
        CounterFrame(n);
      }
    }

    /** A tag that is neither a string nor an object's. */
    ghost predicate IsPlain(i: nat)
      reads `dbuf
    {
      Scan(dbuf, i).Some? && !TextAt(dbuf, i) && !IsObject(Scan(dbuf, i).value.0) && Links(Scan(dbuf, i).value.0) == {}
    }

    lemma PlainCase(i: nat)
      requires i < |dbuf| && Linkless(dbuf[i] % HIGH) && Scan(dbuf, i).Some? && Plain(Scan(dbuf, i).value.0)
      ensures !TextAt(dbuf, i) ==> IsPlain(i)
    {
      LinklessScan(dbuf, i);
      hide Scan;
    }

    lemma HashBound(i: nat)
      requires Working(i)
      ensures Scan(dbuf, i).Some? && Scan(dbuf, i).value.0.Open? && Scan(dbuf, i).value.0.tag == HASH ==>
        2 * Scan(dbuf, i).value.0.count < KEYS
    {
      hide Scan, Path, Sound, State, Books;
      WorkingAt(i);
    }

    /** A reference to a small array or hash, with its count in the tag. */
    method MergeSmallGroup(tag: byte) returns (r: Ending, ghost w: Option<seq<Want>>)
      requires Ready(didx) && tag == dbuf[didx] % HIGH && ARRAYREF <= tag < SHORT_BINARY && stack != []
      modifies `mbuf, `didx, `stack, `marks, `m, `img, `from
      ensures r.Ok? && old(didx) < didx && |old(stack)| <= |stack| && (honest ==> IsPlain(old(didx)))
      ensures honest ==> Moved(old(didx), |old(mbuf)|, w) && Pushed(old(stack), stack, w)
      ensures old(mbuf) <= mbuf
    {
      hide Path, Scan, Sound, State, Plain, Takeable, Books, Working, Dealt, Frame, Wants;
      var n := tag % 16;
      w := None;
      if honest {
        SmallGroupCase(dbuf, didx);
        PlainCase(didx);
        w := Some(Wants(Scan(dbuf, didx).value.0));
        CounterFrame(n);
      }
      r := MergePlain(1);
      stack := stack + [if tag >= HASHREF then 2 * n + KEYS else n];
    }

    /** Padding, a reference or a weakened one: the counter is raised, to be lowered again. */
    method MergeFake(tag: byte) returns (r: Ending)
      requires Ready(didx) && tag == dbuf[didx] % HIGH && stack != []
      requires tag == PAD || tag == REFN || tag == WEAKEN || tag == EXTEND
      modifies `mbuf, `didx, `stack, `marks, `m, `img, `from
      ensures r.Ok? && old(didx) < didx && (honest ==> IsPlain(old(didx)))
      ensures stack == old(stack)[|old(stack)| - 1 := Plus(old(stack)[|old(stack)| - 1])]
      ensures honest ==> Moved(old(didx), |old(mbuf)|, None)
      ensures old(mbuf) <= mbuf
    {
      hide Path, Scan, Sound, State, Plain, Takeable, Books, Working, Dealt;
      if honest {
        FakeCase(dbuf, didx);
        PlainCase(didx);
      }
      stack := stack[|stack| - 1 := Plus(stack[|stack| - 1])];
      r := MergePlain(1);
    }

    // ----- objects -----

    predicate Readable(from: nat)
      reads `dbuf
    {
      && from < |dbuf| && TextAt(dbuf, from) && dbuf[from] % HIGH != SHORT_BINARY
      && |Scan(dbuf, from).value.0.content| <= MAX_STRING
    }

    lemma ReadableName(i: nat)
      requires Working(i) && Due(i)
      ensures IsObject(Scan(dbuf, i).value.0) ==> Readable(i + 1)
    {
      Beyond(dbuf, i + 1);
      hide Scan, Path, Sound, State, Books, NameMet;
      WorkingAt(i);
      if IsObject(Scan(dbuf, i).value.0) {
        PathStep(dbuf, 1, i);
        TakeableAt(i + 1);
      }
    }

    /** A string spelled out at `from`: where its content starts, counted from there, and the content. */
    method ReadString(from: nat) returns (r: Ending, offset: nat, str: seq<byte>)
      ensures r.Ok? ==> 0 < offset && from + offset + |str| <= |dbuf|
      ensures Readable(from) ==>
        r.Ok? && str == Scan(dbuf, from).value.0.content && from + offset + |str| == Scan(dbuf, from).value.1
    {
      hide Scan;
      offset, str := 0, [];
      if from >= |dbuf| {
        return Panic, offset, str;
      }
      var tag := dbuf[from] % HIGH;
      StringCase(dbuf, from);
      if !(tag == BINARY || tag == STR_UTF8 || tag >= SHORT_BINARY) {
        return Error, offset, str;
      }
      if TextAt(dbuf, from) {
        TextCase(dbuf, from);
      }
      var ln: iv := 0;
      if tag > SHORT_BINARY {
        ln := tag - SHORT_BINARY;
      } else {
        var ok;
        ok, ln, offset := GoDecoder.Varintdecode(dbuf, from + 1);
        if !ok {
          return Error, offset, str;
        }
      }
      offset := offset + 1;
      if ln < 0 || ln > MAX_STRING || from + offset + ln > |dbuf| {
        return Error, offset, str;
      }
      return Ok, offset, dbuf[from + offset..from + offset + ln];
    }

    /** An object, up to where the document is read now: what was written, and what the table of class names
        became. */
    ghost predicate ObjectDone(i: nat, was: seq<byte>, obj0: map<seq<byte>, nat>)
      reads `dbuf, `didx, `mbuf, `objTable
    {
      && TextAt(dbuf, i + 1) && i < didx <= |dbuf|
      && var s := Scan(dbuf, i + 1).value.0.content;
      && (s in obj0 ==> AsObjectV(dbuf, i, was, mbuf, obj0[s]) && objTable == obj0)
      && (s !in obj0 ==> mbuf == was + dbuf[i..didx] && objTable == obj0[s := |was| + 1])
    }

    /** An object: with a class name seen before it becomes an OBJECTV. */
    method MergeObject(tag: byte) returns (r: Ending, rel: nat)
      requires Ready(didx) && tag == dbuf[didx] % HIGH && (tag == OBJECT || tag == OBJECT_FREEZE) && stack != []
      modifies `mbuf, `didx, `stack, `objTable, `marks, `m, `img, `from
      ensures honest ==> r.Ok? && IsObject(Scan(dbuf, old(didx)).value.0) && ObjectDone(old(didx), old(mbuf), old(objTable))
      ensures honest ==> LinksFound(old(didx)) && !TextAt(dbuf, old(didx))
      ensures r.Ok? ==> old(didx) < didx && |old(stack)| <= |stack|
      ensures honest && r.Ok? ==> Moved(old(didx), rel, Some([Item])) && Pushed(old(stack), stack, Some([Item]))
      ensures old(mbuf) <= mbuf && Grown(old(objTable), objTable, |old(mbuf)|)
    {
      hide Path, Scan, Sound, State, Plain, Takeable, Books, Frame, Dealt, Working, TextAt, NameMet, AsObjectV, LinksFound, Write;
      rel := |mbuf|;
      ghost var i, was, obj0 := didx, mbuf, objTable;
      if honest {
        ObjectCase(dbuf, i);
        ReadableName(i);
        ObjectLinks(i);
      }
      var offset, str;
      r, offset, str := ReadString(didx + 1);
      if !r.Ok? {
        return;
      }
      if str in objTable {
        rel := objTable[str];
        KnownClass(tag, offset + |str| + 1, str);
      } else {
        rel := rel + 1;
        r := NewClass(offset + |str| + 1, str);
      }
      stack := stack + [1];
      CounterFrame(1);
    }

    lemma ObjectLinks(i: nat)
      ensures Scan(dbuf, i).Some? && IsObject(Scan(dbuf, i).value.0) ==> LinksFound(i) && !TextAt(dbuf, i)
    {
      hide Scan;
    }

    method KnownClass(tag: byte, length: nat, str: seq<byte>)
      requires didx < |dbuf| && tag == dbuf[didx] % HIGH && str in objTable
      requires honest ==> (tag == OBJECT || tag == OBJECT_FREEZE) && ObjectIn(dbuf, keepFlat, didx, didx + length, str)
      requires Ready(didx)
      modifies `mbuf, `didx, `marks, `m, `img
      ensures didx == old(didx) + length && (honest ==> Dealt(old(didx), objTable[str]))
      ensures honest ==> AsObjectV(dbuf, old(didx), old(mbuf), mbuf, objTable[str])
      ensures old(mbuf) <= mbuf
    {
      hide Path, Scan, Sound, State, Takeable, Books, Dealt, TextAt, NameMet;
      ghost var i, was := didx, mbuf;
      var rel := objTable[str];
      var h := if tag == OBJECT then OBJECTV else OBJECTV_FREEZE;
      AppendTagVarint(h, rel);
      assert mbuf == was + ([h] + Write(rel));
      didx := didx + length;
      if honest {
        ObjectCase(dbuf, i);
        ObjectDeduped(i, was, str, rel, rel);
      }
    }

    method NewClass(length: nat, str: seq<byte>) returns (r: Ending)
      requires Ready(didx) && didx + length <= |dbuf| && 0 < length && str !in objTable
      requires honest ==> ObjectIn(dbuf, keepFlat, didx, didx + length, str)
      modifies `mbuf, `didx, `objTable, `marks, `m, `img, `from
      ensures r.Ok? && didx == old(didx) + length && (honest ==> Dealt(old(didx), |old(mbuf)| + 1))
      ensures mbuf == old(mbuf) + dbuf[old(didx)..didx] && objTable == old(objTable)[str := |old(mbuf)| + 1]
    {
      hide Path, Scan, Sound, State, Takeable, Books, Dealt, TextAt, NameMet, Header;
      ghost var i, was, obj0 := didx, mbuf, objTable;
      objTable := objTable[str := |mbuf| + 1];
      r := Take(length);
      if honest {
        ObjectCopied(i, was, obj0, str, |was| + 1);
      }
    }

    /** A regular expression is outside what is proved. */
    method MergeRegexp(tag: byte) returns (r: Ending)
      requires Ready(didx) && tag == dbuf[didx] % HIGH && tag == REGEXP
      modifies `mbuf, `didx
      ensures !honest
      ensures r.Ok? ==> old(didx) < didx
      ensures old(mbuf) <= mbuf
    {
      hide Path, Scan, Sound, State, Takeable, Books, Working;
      OpenScan(dbuf, didx);
      var offset, str;
      r, offset, str := ReadString(didx + 1);
      if !r.Ok? {
        return;
      }
      var length := offset + |str| + 1;
      r, offset, str := ReadString(didx + length);
      if !r.Ok? {
        return;
      }
      r := Take(length + offset + |str|);
    }

    // ----- the loop -----

    /** Numbers and constants. */
    method MergeLeaf(tag: byte) returns (r: Ending)
      requires Ready(didx) && tag == dbuf[didx] % HIGH && IsLeaf(tag)
      modifies `mbuf, `didx, `marks, `m, `img, `from
      ensures honest ==> r.Ok? && IsPlain(old(didx))
      ensures r.Ok? ==> old(didx) < didx && (honest ==> Moved(old(didx), |old(mbuf)|, Some([])))
      ensures old(mbuf) <= mbuf
    {
      hide Path, Scan, Sound, State, Plain, Takeable, Books, Working, Dealt, Read;
      if honest {
        LeafScan(dbuf, didx);
        LeafNoText(dbuf, didx);
        PlainOnly(Scan(dbuf, didx).value.0);
        PlainCase(didx);
      }
      if tag == VARINT || tag == ZIGZAG {
        var n;
        r, n := MergeVarint();
      } else {
        r := MergePlain(if tag == FLOAT then 5 else if tag == DOUBLE then 9 else if tag == LONG_DOUBLE then 17 else 1);
      }
    }

    /** What the tag at i did to the tables, and what was written if it was a string or an object. */
    ghost predicate Tabled(i: nat, dedupe: bool, was: seq<byte>, str0: map<seq<byte>, nat>, obj0: map<seq<byte>, nat>)
      reads `dbuf, `didx, `mbuf, `strTable, `objTable
    {
      && Scan(dbuf, i).Some?
      && (if TextAt(dbuf, i) then TextDone(i, dedupe, was, str0) else strTable == str0)
      && (if IsObject(Scan(dbuf, i).value.0) then ObjectDone(i, was, obj0) else objTable == obj0)
    }

    /** One tag: where it, or an equal string, stands in the output, and the places it opened. */
    method MergeTag(tag: byte, dedupe: bool) returns (r: Ending, rel: nat, ghost w: Option<seq<Want>>)
      requires Ready(didx) && tag == dbuf[didx] % HIGH && stack != []
      requires honest && TextAt(dbuf, didx) && Long(tag) ==> (Asked(didx) <==> dedupe)
      modifies `mbuf, `didx, `stack, `strTable, `objTable, `marks, `m, `img, `from
      ensures r.Ok? ==> old(didx) < didx && |old(stack)| <= |stack|
      ensures honest && r.Ok? ==> Moved(old(didx), rel, w) && Pushed(old(stack), stack, w)
      ensures honest ==> (r.Ok? <==> LinksFound(old(didx)))
      ensures honest && !r.Ok? ==> strTable == old(strTable) && objTable == old(objTable)
      ensures honest && r.Ok? ==> Tabled(old(didx), dedupe, old(mbuf), old(strTable), old(objTable))
      ensures old(Fits(didx)) ==> r.Ok? && TextDone(old(didx), dedupe, old(mbuf), old(strTable)) && stack == old(stack)
      ensures Grown(old(strTable), strTable, |old(mbuf)|) && Grown(old(objTable), objTable, |old(mbuf)|)
      ensures Fronts(old(mbuf), mbuf) && (honest ==> old(mbuf) <= mbuf)
    {
      hide Path, Scan, Sound, State, Plain, Takeable, Books, Fronts, Working, Dealt, Opened, Frame, Links, ObjectDone, TextDone, Grown,
        TextAt, Looked, Pushed, NameMet, IsObject;
      ghost var i, was := didx, mbuf;
      FrontsSelf(mbuf);
      GrownSelf(strTable, |mbuf|);
      GrownSelf(objTable, |mbuf|);
      StringCase(dbuf, didx);
      PushedNone(stack);
      w := Some([]);
      rel := |mbuf|;
      if IsLeaf(tag) {
        r := MergeLeaf(tag);
      } else if tag == PAD || tag == REFN || tag == WEAKEN || tag == EXTEND {
        r := MergeFake(tag);
        w := None;
      } else if tag == BINARY || tag == STR_UTF8 || tag >= SHORT_BINARY {
        if honest {
          TextHere(i);
        }
        TextLinks(i);
        r, rel := MergeText(tag, dedupe);
      } else if tag == COPY || tag == REFP || tag == ALIAS || tag == OBJECTV || tag == OBJECTV_FREEZE {
        r := MergeLink(tag);
      } else if tag == ARRAY || tag == HASH {
        r, w := MergeGroup(tag);
      } else if ARRAYREF <= tag {
        r, w := MergeSmallGroup(tag);
      } else if tag == REGEXP {
        r := MergeRegexp(tag);
      } else if tag == OBJECT || tag == OBJECT_FREEZE {
        r, rel := MergeObject(tag);
        w := Some([Item]);
      } else {
        UnknownScan(dbuf, didx);
        r := Error;
      }
      PlainLinks(i);
      FrontsPrefix(was, mbuf);
    }

    lemma TextLinks(i: nat)
      ensures TextAt(dbuf, i) ==> LinksFound(i) && !IsObject(Scan(dbuf, i).value.0)
    {
      hide Scan;
    }

    lemma PlainLinks(i: nat)
      ensures IsPlain(i) ==> LinksFound(i)
    {
      hide Scan;
    }

    static lemma PushedNone(stack: seq<nat>)
      requires stack != []
      ensures Pushed(stack, stack, Some([])) && Pushed(stack, stack[|stack| - 1 := Plus(stack[|stack| - 1])], None)
    {
    }

    /** What can be said of the first pass's table at i. */
    ghost predicate Tracing(i: nat)
      reads `dbuf, `trackTable, `trackIdxs, `honest, `at
    {
      honest && TraceAll(dbuf, at, i, trackTable, trackIdxs)
    }

    /** The link of a COPY has been found exactly when its target is not blocked. */
    lemma TracedLinks(i: nat)
      requires Working(i) && Tracing(i) && Scan(dbuf, i).Some?
      ensures LinksFound(i) <==> !Barred(dbuf, at, i)
    {
      hide Path, Scan, Sound, State, Noted, Blocked, Books, Takeable;
      WorkingAt(i);
      NotedLinks(dbuf, 1, i);
    }

    /** One round of the loop, with the top frame not yet empty.  `str0` and `obj0` are what the tables held
        when the document began. */
    method Step(ghost str0: set<seq<byte>>, ghost obj0: set<seq<byte>>) returns (r: Ending)
      requires 0 < didx < |dbuf| && stack != [] && stack[|stack| - 1] % KEYS > 0
      requires honest ==> Working(didx) && Reading(dbuf, keepFlat, didx, Todo(stack))
      requires honest ==> Given(dbuf, keepFlat, dedupeStrings, didx, str0, obj0, strTable.Keys, objTable.Keys)
      modifies `mbuf, `didx, `stack, `trackIdxs, `trackTable, `strTable, `objTable, `marks, `m, `img, `from
      ensures r.Ok? ==> old(didx) < didx && stack != []
      ensures honest && r.Ok? ==> Working(didx) && Reading(dbuf, keepFlat, didx, Todo(stack))
      ensures honest && r.Ok? ==> Given(dbuf, keepFlat, dedupeStrings, didx, str0, obj0, strTable.Keys, objTable.Keys)
      ensures honest && !r.Ok? ==> Given(dbuf, keepFlat, dedupeStrings, old(didx), str0, obj0, strTable.Keys, objTable.Keys)
      ensures honest && !r.Ok? ==> Within(strTable, WORD) && Within(objTable, WORD)
      ensures old(Tracing(didx)) && old(FreeTo(dbuf, at, didx)) ==>
        if r.Ok? then Tracing(didx) && FreeTo(dbuf, at, didx) else FirstBlocked(dbuf, keepFlat, old(didx))
      ensures honest && r.Ok? ==>
        Tabled(old(didx), dedupeStrings || Todo(old(stack))[0] == Key, old(mbuf), old(strTable), old(objTable))
      ensures old(Fits(didx)) && old(stack) == [1] ==>
        r.Ok? && TextDone(old(didx), dedupeStrings, old(mbuf), old(strTable))
      ensures Grown(old(strTable), strTable, |old(mbuf)|) && Grown(old(objTable), objTable, |old(mbuf)|)
      ensures Fronts(old(mbuf), mbuf) && (honest ==> old(mbuf) <= mbuf)
    {
      hide Path, Scan, Sound, State, Takeable, Books, Fronts, Dealt, Working, Opened, Frame, Noted, TraceAll, Todo, Pushed, TextDone,
        TextAt, Grown, Given, Tabled, Reading, Looked, LinksFound, FreeTo, Due, Asked, Fits, Ready, Tracing, FirstBlocked, Barred,
        NameAt, Header, Met, KeyNext, Moved, Minus, ObjectDone;
      var i, level := didx, |stack| - 1;
      ghost var was, sent, strs, objs := stack, mbuf, strTable, objTable;
      var tag := dbuf[didx] % HIGH;
      var trackme := |trackIdxs| > 0 && trackIdxs[0] == didx;
      var dedupe := dedupeStrings || KeyNext(stack[level]);
      DueNext(stack);
      OneNext(stack);
      if honest {
        Starting(i, dedupe);
        WorkingWithin(i);
      }
      ReadyHere(i);
      HonestTracing(i);
      var rel;
      ghost var w;
      r, rel, w := MergeTag(tag, dedupe);
      if !r.Ok? {
        return;
      }
      stack := stack[level := Minus(stack[level])];
      if honest {
        Counted(i, rel, w, was);
        Entered(i, rel, w, dedupe, sent, strs, objs, str0, obj0);
        MovedOpened(i, rel, w);
        if FreeTo(dbuf, at, i) && !Barred(dbuf, at, i) {
          FreeNext(dbuf, at, i, didx, w);
        }
      }
      Trace(i, trackme, rel, w);
    }

    lemma WorkingWithin(i: nat)
      requires Working(i)
      ensures Within(strTable, WORD) && Within(objTable, WORD)
    {
      hide Scan, Path, Sound, Takeable, Looks, AllLook, OriginsIn, TraceOk, TableOk, Header, GoDocs;
      StateAt(dbuf, at, i, mbuf, base, marks, kept, done, m, img);
      hide State;
      TableWithin(strTable, from.strings, mbuf, marks);
      TableWithin(objTable, from.classes, mbuf, marks);
    }

    lemma ReadyHere(i: nat)
      requires 0 < i == didx < |dbuf| && (honest ==> Working(i) && Due(i))
      ensures Ready(i)
    {
      hide Working, Due;
    }

    lemma HonestTracing(i: nat)
      ensures Tracing(i) ==> honest
    {
    }

    static lemma OneNext(stack: seq<nat>)
      ensures stack == [1] ==> !KeyNext(stack[|stack| - 1])
    {
    }

    /** What holds where a tag is due. */
    lemma Starting(i: nat, dedupe: bool)
      requires Working(i) && i < |dbuf| && stack != [] && Todo(stack) != [] && Reading(dbuf, keepFlat, i, Todo(stack))
      requires dedupe == (dedupeStrings || Todo(stack)[0] == Key)
      ensures Due(i) && Met(dbuf, keepFlat, i) && Path(dbuf, 1, i) && 1 <= at <= i && !NameAt(dbuf, i)
      ensures Header(dbuf, keepFlat).Some? && Header(dbuf, keepFlat).value.0 == at
      ensures Asked(i) <==> TextAt(dbuf, i) && Long(dbuf[i] % HIGH) && dedupe
      ensures Tracing(i) ==> (LinksFound(i) <==> !Barred(dbuf, at, i))
      ensures Barred(dbuf, at, i) && FreeTo(dbuf, at, i) ==> FirstBlocked(dbuf, keepFlat, i)
    {
      hide Path, Scan, Sound, State, Takeable, Books, Frame, Noted, TraceAll, Todo, LinksFound, Reading, Met, KeyDue, NameMet, Barred, FreeTo;
      WorkingAt(i);
      ReadingHere(dbuf, keepFlat, i, Todo(stack));
      if Tracing(i) {
        TracedLinks(i);
      }
    }

    lemma Counted(i: nat, rel: nat, w: Option<seq<Want>>, was: seq<nat>)
      requires Moved(i, rel, w) && was != [] && was[|was| - 1] % KEYS > 0 && Reading(dbuf, keepFlat, i, Todo(was))
      requires exists s :: Pushed(was, s, w) && |was| <= |s| && stack == s[|was| - 1 := Minus(s[|was| - 1])]
      ensures Reading(dbuf, keepFlat, didx, Todo(stack)) && i < didx
    {
      hide Path, Scan, Dealt, Opened, Reading, Frame, Todo, Pushed;
      var s :| Pushed(was, s, w) && |was| <= |s| && stack == s[|was| - 1 := Minus(s[|was| - 1])];
      PushedTodo(was, s, w);
      ReadingNext(dbuf, keepFlat, i, didx, w, Todo(was));
    }

    /** What the tables hold now. */
    lemma Entered(i: nat, rel: nat, w: Option<seq<Want>>, dedupe: bool, was: seq<byte>, strs: map<seq<byte>, nat>, objs: map<seq<byte>, nat>,
                  str0: set<seq<byte>>, obj0: set<seq<byte>>)
      requires Tabled(i, dedupe, was, strs, objs) && 1 <= i < |dbuf| && Path(dbuf, 1, i) && !NameAt(dbuf, i) && Due(i)
      requires Asked(i) <==> TextAt(dbuf, i) && Long(dbuf[i] % HIGH) && dedupe
      requires Given(dbuf, keepFlat, dedupeStrings, i, str0, obj0, strs.Keys, objs.Keys)
      requires Moved(i, rel, w)
      ensures Given(dbuf, keepFlat, dedupeStrings, didx, str0, obj0, strTable.Keys, objTable.Keys)
    {
      MovedOpened(i, rel, w);
      ObjectSpan(i, w);
      StringKeys(i, dedupe, was, strs, objs);
      ClassKeys(i, dedupe, was, strs, objs);
      DueName(i);
      hide *;
      GivenNext(dbuf, keepFlat, dedupeStrings, i, didx, w, str0, obj0, strs.Keys, objs.Keys, strTable.Keys, objTable.Keys);
    }

    lemma MovedOpened(i: nat, rel: nat, w: Option<seq<Want>>)
      requires Moved(i, rel, w)
      ensures Opened(dbuf, i, didx, w)
    {
      hide Dealt, Opened;
    }

    lemma DueName(i: nat)
      requires Due(i)
      ensures IsObject(Scan(dbuf, i).value.0) ==> NameMet(dbuf, keepFlat, i + 1)
    {
      hide Scan, NameMet;
    }

    lemma StringKeys(i: nat, dedupe: bool, was: seq<byte>, strs: map<seq<byte>, nat>, objs: map<seq<byte>, nat>)
      requires Tabled(i, dedupe, was, strs, objs) && i < |dbuf|
      requires Asked(i) <==> TextAt(dbuf, i) && Long(dbuf[i] % HIGH) && dedupe
      ensures strTable.Keys == if Asked(i) then strs.Keys + {Scan(dbuf, i).value.0.content} else strs.Keys
    {
      hide Scan, ObjectDone, Looked, ForText;
    }

    lemma ClassKeys(i: nat, dedupe: bool, was: seq<byte>, strs: map<seq<byte>, nat>, objs: map<seq<byte>, nat>)
      requires Tabled(i, dedupe, was, strs, objs)
      ensures IsObject(Scan(dbuf, i).value.0) ==> TextAt(dbuf, i + 1)
      ensures objTable.Keys ==
        if IsObject(Scan(dbuf, i).value.0) then objs.Keys + {Scan(dbuf, i + 1).value.0.content} else objs.Keys
    {
      hide Scan, TextDone, AsObjectV;
    }

    lemma ObjectSpan(i: nat, w: Option<seq<Want>>)
      requires Opened(dbuf, i, didx, w) && Due(i)
      ensures i < didx && (IsObject(Scan(dbuf, i).value.0) ==> i + 1 < didx)
    {
      hide Scan, NameMet;
    }

    /** Remembers where a noted tag went. */
    method Trace(i: nat, trackme: bool, rel: nat, ghost w: Option<seq<Want>>)
      requires i < didx && trackme == (|trackIdxs| > 0 && trackIdxs[0] == i)
      requires honest ==> Moved(i, rel, w) && Path(dbuf, 1, i) && 1 <= at <= i && !NameAt(dbuf, i)
      modifies `trackIdxs, `trackTable
      ensures honest ==> Working(didx)
      ensures old(Tracing(i)) ==> Tracing(didx)
    {
      hide Path, Scan, Sound, State, Takeable, Books, Noted, TraceAll, TextAt, Opened, NameAt, Header, GoDocs;
      if honest {
        NameNext(dbuf, i, didx, w);
        BooksTrace(dbuf, keepFlat, dedupeStrings, mbuf, marks, done.docs, img, strTable, objTable, from, trackTable, i, rel);
      }
      if Tracing(i) {
        forall x | x in Noted(dbuf, 1) && i < x < didx
          ensures Unasked(dbuf, at, x)
        {
          Untouched(i, rel, w, x);
        }
        TraceStep(dbuf, at, i, didx, trackTable, trackIdxs, rel);
      }
      if trackme {
        trackTable := trackTable[i := rel];
        trackIdxs := trackIdxs[1..];
      }
    }

    lemma Untouched(i: nat, rel: nat, w: Option<seq<Want>>, x: nat)
      requires Moved(i, rel, w) && Path(dbuf, 1, i) && x in Noted(dbuf, 1) && i < x < didx
      ensures Unasked(dbuf, at, x)
    {
      hide Path, Scan, State, Books, Noted, Opened, Sound, Unasked, Header;
      OpenedTrace(dbuf, at, i, didx, w, x);
    }

    /** Drops the frames that are used up. */
    method PopEmpty()
      modifies `stack
      ensures Todo(stack) == Todo(old(stack))
      ensures stack != [] ==> stack[|stack| - 1] % KEYS > 0
      ensures old(stack) != [] && old(stack)[|old(stack)| - 1] % KEYS > 0 ==> stack == old(stack)
    {
      while stack != [] && stack[|stack| - 1] % KEYS == 0
        invariant Todo(stack) == Todo(old(stack))
        invariant old(stack) != [] && old(stack)[|old(stack)| - 1] % KEYS > 0 ==> stack == old(stack)
        decreases |stack|
      {
        var rest, top := stack[..|stack| - 1], stack[|stack| - 1];
        assert stack == rest + [top];
        TodoEmpty(rest, top);
        stack := rest;
      }
    }

    /** How many items the document is to give, and where they begin. */
    method ExpectedElements() returns (r: Ending, n: iv, offset: nat)
      requires 1 <= |dbuf|
      ensures if r.Ok? && 0 <= n <= MAX_STRING then Header(dbuf, keepFlat) == Some((1 + offset, n)) else Header(dbuf, keepFlat).None?
    {
      hide Read;
      if keepFlat {
        if |dbuf| < 3 {
          return Panic, 0, 0;
        }
        var tag0, tag1 := dbuf[1] % HIGH, dbuf[2] % HIGH;
        if tag0 == REFN && tag1 == ARRAY {
          var ok, ln, sz := GoDecoder.Varintdecode(dbuf, 3);
          return if ok then Ok else Error, ln, sz + 2;
        } else if ARRAYREF <= tag0 < HASHREF {
          return Ok, tag0 - ARRAYREF, 1;
        }
      }
      return Ok, 1, 0;
    }

    /** A document that is one string, and not a long one. */
    ghost predicate OneText()
      reads `dbuf
    {
      !keepFlat && Fits(1) && Scan(dbuf, 1).value.1 == |dbuf|
    }

    /** The second pass.  It stops behind the items that are asked for, or at the end of the document. */
    method MergeItems() returns (r: Ending)
      requires 1 <= |dbuf| && didx == 1 && (honest ==> Working(at))
      modifies `mbuf, `didx, `stack, `trackIdxs, `trackTable, `strTable, `objTable, `marks, `m, `img, `from, `length
      ensures r.Ok? ==> Header(dbuf, keepFlat).Some? && length == old(length) + Header(dbuf, keepFlat).value.1
      ensures !r.Ok? ==> length == old(length)
      ensures honest && r.Ok? ==> Working(didx) && Merged(didx)
      ensures old(Tracing(at)) && r.Ok? ==> FreeTo(dbuf, at, didx)
      ensures old(Tracing(at)) && !r.Ok? ==> exists q ::
        Stopped(dbuf, keepFlat, dedupeStrings, q, old(strTable).Keys, old(objTable).Keys, strTable.Keys, objTable.Keys)
      ensures honest && !r.Ok? ==> Within(strTable, WORD) && Within(objTable, WORD)
      ensures OneText() ==> r.Ok? && TextDone(1, dedupeStrings, old(mbuf), old(strTable))
      ensures Grown(old(strTable), strTable, |old(mbuf)|) && Grown(old(objTable), objTable, |old(mbuf)|)
      ensures Fronts(old(mbuf), mbuf) && (honest ==> old(mbuf) <= mbuf)
    {
      hide Path, Scan, Sound, State, Takeable, Books, Fronts, Working, Noted, TraceAll, Todo, TextDone, Fits, Grown, Given, Within,
        Tabled, Reading, FreeTo, Header, FirstBlocked, Frame, Merged, OneText, Tracing, Looping, Stopped;
      ghost var was, strs, objs, traced := mbuf, strTable, objTable, Tracing(at);
      var expElements, offset;
      r, expElements, offset := ExpectedElements();
      Untold(mbuf, strTable, objTable);
      if !r.Ok? || !(0 <= expElements <= MAX_STRING) {
        HeaderSome();
        return if r.Ok? then Error else r;
      }
      didx := didx + offset;
      stack := [expElements];
      LoopStart(expElements);
      r := MergeTags(was, strs, objs, traced);
      if !r.Ok? {
        return;
      }
      LoopEnd(was, strs, objs, traced);
      length := length + expElements;
    }

    static lemma Untold(buf: seq<byte>, str: map<seq<byte>, nat>, obj: map<seq<byte>, nat>)
      ensures Fronts(buf, buf) && Grown(str, str, |buf|) && Grown(obj, obj, |buf|)
    {
    }

    lemma HeaderSome()
      requires Header(dbuf, keepFlat).None? && (honest ==> Working(at))
      ensures !honest && !Tracing(at) && !OneText()
    {
      HeaderPlain();
      hide Header, OneText, State, Books, Takeable, GoDocs, TraceAll;
    }

    lemma LoopStart(n: nat)
      requires Header(dbuf, keepFlat) == Some((didx, n)) && stack == [n] && (honest ==> Working(at))
      ensures Looping(mbuf, strTable, objTable, Tracing(at))
    {
      hide Path, Scan, Sound, State, Takeable, Books, Fronts, Working, Noted, TraceAll, Todo, TextDone, Fits, Grown, Given,
        Reading, FreeTo, Header, Frame, OneText;
      Untold(mbuf, strTable, objTable);
      HeaderPlain();
      if honest {
        HeaderHere(at);
        Opening(n);
      }
      FreeStart(dbuf, didx);
    }

    lemma LoopEnd(was: seq<byte>, strs: map<seq<byte>, nat>, objs: map<seq<byte>, nat>, traced: bool)
      requires Looping(was, strs, objs, traced) && (stack == [] || didx >= |dbuf|)
      ensures honest ==> Working(didx) && Merged(didx) && was <= mbuf
      ensures (traced ==> FreeTo(dbuf, at, didx)) && (OneText() ==> TextDone(1, dedupeStrings, was, strs))
      ensures Grown(strs, strTable, |was|) && Grown(objs, objTable, |was|) && Fronts(was, mbuf)
    {
      hide Path, Scan, Sound, State, Takeable, Books, Fronts, Working, Noted, TraceAll, Todo, TextDone, Fits, Grown, Given,
        Reading, FreeTo, Header, Frame, OneText, Merged;
      if OneText() {
        SoleDone(was, strs);
      }
      if honest {
        Ended(didx);
      }
    }

    /** What every round keeps; `was`, `strs` and `objs` are output and tables as the document found them, and
        `traced` says whether its tags were all noted. */
    ghost predicate Looping(was: seq<byte>, strs: map<seq<byte>, nat>, objs: map<seq<byte>, nat>, traced: bool)
      reads this
    {
      && (honest ==>
          && Working(didx) && Reading(dbuf, keepFlat, didx, Todo(stack)) && was <= mbuf
          && Given(dbuf, keepFlat, dedupeStrings, didx, strs.Keys, objs.Keys, strTable.Keys, objTable.Keys))
      && (traced ==> Tracing(didx) && FreeTo(dbuf, at, didx))
      && Grown(strs, strTable, |was|) && Grown(objs, objTable, |was|) && Fronts(was, mbuf)
      && (OneText() ==> Sole(was, strs))
    }

    /** One round of it. */
    method Round(ghost was: seq<byte>, ghost strs: map<seq<byte>, nat>, ghost objs: map<seq<byte>, nat>, ghost traced: bool)
      returns (r: Ending)
      requires 0 < didx < |dbuf| && stack != [] && stack[|stack| - 1] % KEYS > 0 && Looping(was, strs, objs, traced)
      modifies `mbuf, `didx, `stack, `trackIdxs, `trackTable, `strTable, `objTable, `marks, `m, `img, `from
      ensures r.Ok? ==> old(didx) < didx && stack != [] && Looping(was, strs, objs, traced)
      ensures !r.Ok? ==> Grown(strs, strTable, |was|) && Grown(objs, objTable, |was|) && Fronts(was, mbuf) && !OneText()
      ensures !r.Ok? && honest ==> was <= mbuf && Within(strTable, WORD) && Within(objTable, WORD)
      ensures !r.Ok? && traced ==> exists q ::
        Stopped(dbuf, keepFlat, dedupeStrings, q, strs.Keys, objs.Keys, strTable.Keys, objTable.Keys)
    {
      hide Path, Scan, Sound, State, Takeable, Books, Fronts, Working, Noted, TraceAll, Todo, TextDone, Fits, Grown, Given, Within,
        Tabled, Reading, FreeTo, Header, FirstBlocked, Frame, OneText, Tracing;
      ghost var i, sent, str1, obj1 := didx, mbuf, strTable, objTable;
      HonestTracing(i);
      if OneText() {
        SoleDone(was, strs);
      }
      r := Step(strs.Keys, objs.Keys);
      Passed(was, sent, mbuf, strs, str1, strTable, objs, obj1, objTable);
      if OneText() {
        SoleDone(was, strs);
      }
      assert !r.Ok? && traced ==> Stopped(dbuf, keepFlat, dedupeStrings, i, strs.Keys, objs.Keys, strTable.Keys, objTable.Keys);
    }

    /** The loop over the tags. */
    method MergeTags(ghost was: seq<byte>, ghost strs: map<seq<byte>, nat>, ghost objs: map<seq<byte>, nat>, ghost traced: bool)
      returns (r: Ending)
      requires 0 < didx && stack != [] && Looping(was, strs, objs, traced)
      modifies `mbuf, `didx, `stack, `trackIdxs, `trackTable, `strTable, `objTable, `marks, `m, `img, `from
      ensures r.Ok? ==> Looping(was, strs, objs, traced) && (stack == [] || didx >= |dbuf|)
      ensures !r.Ok? ==> Grown(strs, strTable, |was|) && Grown(objs, objTable, |was|) && Fronts(was, mbuf) && !OneText()
      ensures !r.Ok? && honest ==> was <= mbuf && Within(strTable, WORD) && Within(objTable, WORD)
      ensures !r.Ok? && traced ==> exists q ::
        Stopped(dbuf, keepFlat, dedupeStrings, q, strs.Keys, objs.Keys, strTable.Keys, objTable.Keys)
    {
      hide Path, Scan, Sound, State, Takeable, Books, Fronts, Working, Noted, TraceAll, Todo, TextDone, Fits, Grown, Given, Within,
        Tabled, Reading, FreeTo, Header, FirstBlocked, Frame, OneText, Tracing, Stopped;
      while didx < |dbuf|
        invariant 0 < didx && stack != [] && Looping(was, strs, objs, traced)
        decreases |dbuf| - didx
      {
        PopEmpty();
        if stack == [] {
          break;
        }
        r := Round(was, strs, objs, traced);
        if !r.Ok? {
          return;
        }
      }
      r := Ok;
    }

    /** A document that is one string: before it, or behind it. */
    ghost predicate Sole(was: seq<byte>, strs: map<seq<byte>, nat>)
      reads `dbuf, `didx, `mbuf, `strTable, `stack
    {
      || (didx == 1 && mbuf == was && strTable == strs && stack == [1])
      || (didx == |dbuf| && TextDone(1, dedupeStrings, was, strs))
    }

    lemma SoleDone(was: seq<byte>, strs: map<seq<byte>, nat>)
      requires OneText()
      ensures Fits(1) && (TextDone(1, dedupeStrings, was, strs) ==> didx == |dbuf|) && 1 < |dbuf|
    {
      Beyond(dbuf, 1);
      hide Scan;
    }

    lemma HeaderPlain()
      ensures OneText() ==> Header(dbuf, keepFlat) == Some((1, 1)) && Fits(1)
    {
      hide Fits;
    }

    /** All that was asked for has been read. */
    ghost predicate Merged(e: nat)
      reads `dbuf, `at
    {
      && Header(dbuf, keepFlat).Some? && Header(dbuf, keepFlat).value.0 == at
      && Walk(dbuf, at, Items(Header(dbuf, keepFlat).value.1)).Some?
      && Walk(dbuf, at, Items(Header(dbuf, keepFlat).value.1)).value.0 == e
    }

    lemma HeaderHere(i: nat)
      requires Working(i)
      ensures Header(dbuf, keepFlat).Some? && Header(dbuf, keepFlat).value.0 == at && Header(dbuf, keepFlat).value.1 < KEYS
      ensures Takeable(dbuf, keepFlat)
    {
      hide Path, Scan, Sound, State, Books, Header, GoDocs;
    }

    lemma Opening(n: nat)
      requires Working(at) && Header(dbuf, keepFlat) == Some((at, n)) && n < KEYS && stack == [n]
      ensures Reading(dbuf, keepFlat, at, Todo(stack))
      ensures Given(dbuf, keepFlat, dedupeStrings, at, strTable.Keys, objTable.Keys, strTable.Keys, objTable.Keys)
    {
      hide Path, Scan, Sound, State, Takeable, Books, Header, Frame, Todo, Reading, Given, GoDocs;
      TodoOne(n);
      ReadingStart(dbuf, keepFlat);
      GivenStart(dbuf, keepFlat, dedupeStrings, at, strTable.Keys, objTable.Keys);
    }

    lemma Ended(e: nat)
      requires Working(e) && Reading(dbuf, keepFlat, e, Todo(stack)) && (stack == [] || e >= |dbuf|)
      ensures Merged(e)
    {
      hide Path, Scan, Sound, State, Books, Header, Walk, Reading, GoDocs;
      NoneDue();
      HeaderHere(e);
      ReadingEnd(dbuf, keepFlat, e, Todo(stack));
    }

    // ----- the first pass -----

    /** The tag at i, without an offset: where the next begins. */
    method Skip(i: nat, tag: byte) returns (r: Ending, next: nat)
      requires i < |dbuf| && tag == dbuf[i] % HIGH && Linkless(tag)
      ensures r.Ok? ==> i < next
      ensures Scan(dbuf, i).Some? && (TextAt(dbuf, i) ==> Fits(i)) ==> r.Ok? && next == Scan(dbuf, i).value.1
    {
      hide Scan, Read;
      r, next := Ok, i + 1;
      if TextAt(dbuf, i) {
        TextCase(dbuf, i);
      }
      LinklessScan(dbuf, i);
      if IsLeaf(tag) {
        LeafScan(dbuf, i);
        if tag == VARINT || tag == ZIGZAG {
          var ok, n, sz := GoDecoder.Varintdecode(dbuf, i + 1);
          r, next := if ok then Ok else Error, i + sz + 1;
        } else {
          next := i + (if tag == FLOAT then 5 else if tag == DOUBLE then 9 else if tag == LONG_DOUBLE then 17 else 1);
        }
      } else if tag == BINARY || tag == STR_UTF8 {
        TextScan(dbuf, i);
        var ok, ln, sz := GoDecoder.Varintdecode(dbuf, i + 1);
        if !ok || ln < 0 || ln > MAX_STRING || i + sz + ln + 1 > |dbuf| {
          return Error, next;
        }
        next := i + sz + ln + 1;
      } else if tag >= SHORT_BINARY {
        ShortScan(dbuf, i);
        next := i + 1 + (tag - SHORT_BINARY);
      } else {
        OpenScan(dbuf, i);
        if tag == ARRAY || tag == HASH {
          var ok, n, sz := GoDecoder.Varintdecode(dbuf, i + 1);
          r, next := if ok then Ok else Error, i + sz + 1;
        }
      }
    }

    /** The same for a tag with an offset, which must lie before the byte in front of the tag. */
    method SkipLink(i: nat, tag: byte) returns (r: Ending, x: nat, next: nat)
      requires i < |dbuf| <= IV_MAX && tag == dbuf[i] % HIGH
      requires tag == COPY || tag == REFP || tag == ALIAS || tag == OBJECTV || tag == OBJECTV_FREEZE
      ensures r.Ok? ==> i < next
      ensures Scan(dbuf, i).Some? ==> (r.Ok? <==> forall y :: y in Links(Scan(dbuf, i).value.0) ==> y + 1 < i)
      ensures Scan(dbuf, i).Some? && r.Ok? ==> next == Scan(dbuf, i).value.1 && Links(Scan(dbuf, i).value.0) == {x}
    {
      hide Scan, Read, Links;
      LinkScan(dbuf, i, tag);
      var ok, offset, sz := GoDecoder.Varintdecode(dbuf, i + 1);
      if !ok || offset < 0 || offset >= i - 1 {
        return Error, 0, i;
      }
      return Ok, offset, i + sz + 1;
    }

    /** A document that can be taken, and is made of tags to its last byte. */
    ghost predicate Scannable()
      reads `dbuf
    {
      Takeable(dbuf, keepFlat) && Path(dbuf, 1, |dbuf|)
    }

    lemma ScannableAt(i: nat)
      requires Scannable() && Path(dbuf, 1, i)
      ensures i <= |dbuf| && Sound(dbuf)
      ensures i < |dbuf| ==> Scan(dbuf, i).Some? && (TextAt(dbuf, i) ==> Fits(i)) && Path(dbuf, 1, Scan(dbuf, i).value.1)
      ensures i < |dbuf| ==> Links(Scan(dbuf, i).value.0) == if CopyAt(dbuf, i) then {Scan(dbuf, i).value.0.target} else {}
    {
      hide Path, Scan, TagSound, Noted;
      PathSelf(dbuf, 1);
      PathEnd(dbuf, i);
      if i < |dbuf| {
        PathNoGap(dbuf, 1, i, |dbuf|);
        TakeableAt(i);
        PathStep(dbuf, 1, i);
      }
    }

    /** Notes every offset and every flagged tag of the document. */
    method BuildTrackTable() returns (r: Ending)
      requires 1 <= |dbuf| <= IV_MAX
      modifies `trackTable, `trackIdxs
      ensures r.Ok? ==> forall x :: x in trackTable ==> trackTable[x] == -1
      ensures Scannable() ==> (r.Ok? <==> AllFar(dbuf))
      ensures Scannable() && r.Ok? ==> forall i :: TraceAll(dbuf, i, i, trackTable, trackIdxs)
      ensures OneText() ==> r.Ok?
    {
      hide Path, Scan, Sound, Takeable, Noted, Links, TextAt, TraceAll, Scannable, OneText, AllFar, FarTo;
      trackTable := map[];
      PathSelf(dbuf, 1);
      FarStart(dbuf);
      var i := 1;
      while i < |dbuf|
        invariant 1 <= i && forall x :: x in trackTable ==> trackTable[x] == -1
        invariant Scannable() ==> Path(dbuf, 1, i) && FarTo(dbuf, i) && trackTable.Keys + Noted(dbuf, i) == Noted(dbuf, 1)
        invariant OneText() ==> i == 1 || i == |dbuf|
        decreases |dbuf| - i
      {
        var next;
        r, next := NoteTag(i);
        if OneText() {
          SoleText();
        }
        if !r.Ok? {
          if Scannable() {
            FarNot(dbuf, i);
          }
          return;
        }
        if Scannable() {
          FarNext(dbuf, i);
        }
        i := next;
      }
      trackIdxs := InOrder(trackTable.Keys);
      r := Ok;
      if Scannable() {
        ScannableAt(i);
        NotedEnd(dbuf, i);
        FarAll(dbuf, i);
        forall j
          ensures TraceAll(dbuf, j, j, trackTable, trackIdxs)
        {
          TraceStart(dbuf, j, trackTable, trackIdxs);
        }
      }
    }

    lemma SoleText()
      requires OneText()
      ensures Fits(1) && Scan(dbuf, 1).value.1 == |dbuf|
    {
      hide Scan;
    }

    /** Notes what the tag at i has to say. */
    method NoteTag(i: nat) returns (r: Ending, next: nat)
      requires 1 <= i < |dbuf| <= IV_MAX && forall x :: x in trackTable ==> trackTable[x] == -1
      modifies `trackTable
      ensures r.Ok? ==> i < next && forall x :: x in trackTable ==> trackTable[x] == -1
      ensures Scannable() && Path(dbuf, 1, i) ==> Scan(dbuf, i).Some? && (r.Ok? <==> (CopyAt(dbuf, i) ==> Far(dbuf, i)))
      ensures Scannable() && Path(dbuf, 1, i) && r.Ok? ==>
        && Path(dbuf, 1, next) && next == Scan(dbuf, i).value.1
        && trackTable.Keys + Noted(dbuf, next) == old(trackTable).Keys + Noted(dbuf, i)
      ensures Fits(i) ==> r.Ok? && next == Scan(dbuf, i).value.1
    {
      hide Path, Scan, Sound, Takeable, Noted, Links, Scannable, Read;
      if Scannable() && Path(dbuf, 1, i) {
        ScannableAt(i);
        NotedStep(dbuf, i);
      }
      TextTagged(i);
      if dbuf[i] >= HIGH {
        trackTable := trackTable[i := -1];
      }
      var tag := dbuf[i] % HIGH;
      if Linkless(tag) {
        NoLinks(dbuf, i);
        r, next := Skip(i, tag);
      } else if tag == COPY || tag == REFP || tag == ALIAS || tag == OBJECTV || tag == OBJECTV_FREEZE {
        var x;
        r, x, next := SkipLink(i, tag);
        if r.Ok? {
          trackTable := trackTable[x := -1];
        }
      } else {
        UnknownScan(dbuf, i);
        return Error, i;
      }
    }

    lemma TextTagged(i: nat)
      requires i < |dbuf|
      ensures TextAt(dbuf, i) ==> Linkless(dbuf[i] % HIGH)
    {
      StringCase(dbuf, i);
      hide Scan;
    }

    // ----- operations -----

    /** Nothing but what the document holds decides how its append ends. */
    ghost predicate Fair(doc: seq<byte>)
      reads this
    {
      honest && !finished && Takeable(doc, keepFlat) && Path(doc, 1, |doc|) && |mbuf| + GROWTH * |doc| < WORD
    }

    /** What was looked up in front of q is what has been entered, and it stays; the tables still name only the
        output when none of it was new. */
    ghost predicate Leaves(doc: seq<byte>, q: nat, str0: set<seq<byte>>, obj0: set<seq<byte>>)
      reads `mbuf, `strTable, `objTable
    {
      && Given(doc, keepFlat, dedupeStrings, q, str0, obj0, strTable.Keys, objTable.Keys)
      && (Inside() <==> NothingNew(doc, keepFlat, dedupeStrings, q, str0, obj0))
      && Within(strTable, WORD) && Within(objTable, WORD)
    }

    /** Appends one document.  `doc` is its body, with the byte before it.  After a failed second pass the
        output is cut back, but the tables are not: what was entered stays. */
    method Append(doc: seq<byte>) returns (r: Ending)
      requires Resting() && 1 <= |doc|
      modifies this
      ensures Resting() && finished == old(finished) && Fronts(old(mbuf), mbuf)
      ensures r.Ok? ==> !finished && |old(mbuf)| <= |mbuf|
      ensures r.Ok? ==> Header(doc, keepFlat).Some? && length == old(length) + Header(doc, keepFlat).value.1
      ensures !r.Ok? ==> |mbuf| == |old(mbuf)| && done == old(done) && length == old(length)
      ensures old(honest) && r.Ok? && Takeable(doc, keepFlat) ==>
        && honest && Inputs(done.docs) == Inputs(old(done).docs) + [PieceOf(doc, keepFlat)]
        && |mbuf| <= |old(mbuf)| + GROWTH * |doc|
      ensures old(Fair(doc)) ==> (r.Ok? <==> Traceable(doc, keepFlat))
      ensures old(honest) && !old(finished) && !r.Ok? ==> (Inside() <==> strTable == old(strTable) && objTable == old(objTable))
      ensures old(Fair(doc)) && !r.Ok? ==> mbuf == old(mbuf) && (honest <==> Inside()) && (!AllFar(doc) ==> Inside())
      ensures old(Fair(doc)) && !r.Ok? && AllFar(doc) ==> exists q :: FirstBlocked(doc, keepFlat, q)
      ensures old(Fair(doc)) && !r.Ok? && AllFar(doc) ==> forall q :: FirstBlocked(doc, keepFlat, q) ==>
        Leaves(doc, q, old(strTable).Keys, old(objTable).Keys)
      ensures !old(finished) && |old(mbuf)| + GROWTH * |doc| < WORD && dbuf == doc && OneText() ==>
        r.Ok? && TextDone(1, dedupeStrings, old(mbuf), old(strTable))
      ensures !old(finished) && |old(mbuf)| + GROWTH * |doc| < WORD ==> dbuf == doc
      ensures !old(finished) ==> Grown(old(strTable), strTable, |old(mbuf)|) && Grown(old(objTable), objTable, |old(mbuf)|)
    {
      hide Path, Scan, Sound, State, Takeable, Books, Fronts, Core, Working, Noted, TraceAll, Tracing, FreeTo, FirstBlocked, Header, Grown,
        AllFar, Traceable, TextDone, Given, Fits, AtRest, PieceOf, Inside, OneText, Shelved, Stopped, Merged, Scannable;
      FrontsSelf(mbuf);
      GrownSelf(strTable, |mbuf|);
      GrownSelf(objTable, |mbuf|);
      if finished {
        return Error;
      }
      if honest {
        RestingInside();
      }
      if |mbuf| + GROWTH * |doc| >= WORD {
        return NoMemory;
      }
      dbuf, didx := doc, 1;
      r := BuildTrackTable();
      FairHere();
      if !r.Ok? {
        return;
      }
      ghost var strs, objs, end := strTable, objTable, |mbuf|;
      r := SecondPass();
      if old(Fair(doc)) && !r.Ok? {
        Stops(strs, objs, end);
      }
    }

    lemma Stops(strs: map<seq<byte>, nat>, objs: map<seq<byte>, nat>, end: nat)
      requires exists q :: Stopped(dbuf, keepFlat, dedupeStrings, q, strs.Keys, objs.Keys, strTable.Keys, objTable.Keys)
      requires Grown(strs, strTable, end) && Grown(objs, objTable, end)
      requires (Inside() <==> strTable == strs && objTable == objs) && Within(strTable, WORD) && Within(objTable, WORD)
      ensures exists q :: FirstBlocked(dbuf, keepFlat, q)
      ensures forall q :: FirstBlocked(dbuf, keepFlat, q) ==> Leaves(dbuf, q, strs.Keys, objs.Keys)
    {
      var p :| Stopped(dbuf, keepFlat, dedupeStrings, p, strs.Keys, objs.Keys, strTable.Keys, objTable.Keys);
      GivenNothing(dbuf, keepFlat, dedupeStrings, p, strs.Keys, objs.Keys, strTable.Keys, objTable.Keys);
      GrownKeys(strs, strTable, end);
      GrownKeys(objs, objTable, end);
      hide FirstBlocked, Given, NothingNew, Grown, Within;
      forall q | FirstBlocked(dbuf, keepFlat, q)
        ensures Leaves(dbuf, q, strs.Keys, objs.Keys)
      {
        StopsOnce(dbuf, keepFlat, p, q);
      }
    }

    /** The second pass, and what is left behind when it fails. */
    method SecondPass() returns (r: Ending)
      requires Resting() && !finished && 1 <= |dbuf| && didx == 1 && |mbuf| + GROWTH * |dbuf| < WORD
      requires forall x :: x in trackTable ==> trackTable[x] == -1
      requires Scannable() ==> AllFar(dbuf) && forall i :: TraceAll(dbuf, i, i, trackTable, trackIdxs)
      modifies this
      ensures Resting() && dbuf == old(dbuf) && !finished && Fronts(old(mbuf), mbuf)
      ensures r.Ok? ==> |old(mbuf)| <= |mbuf|
      ensures r.Ok? ==> Header(dbuf, keepFlat).Some? && length == old(length) + Header(dbuf, keepFlat).value.1
      ensures !r.Ok? ==> |mbuf| == |old(mbuf)| && done == old(done) && length == old(length)
      ensures old(honest) && r.Ok? && Takeable(dbuf, keepFlat) ==>
        && honest && Inputs(done.docs) == Inputs(old(done).docs) + [PieceOf(dbuf, keepFlat)]
        && |mbuf| <= |old(mbuf)| + GROWTH * |dbuf|
      ensures old(honest) && !r.Ok? ==> (Inside() <==> strTable == old(strTable) && objTable == old(objTable))
      ensures old(honest) && Scannable() ==> (r.Ok? <==> Traceable(dbuf, keepFlat))
      ensures old(honest) && Scannable() && !r.Ok? ==> mbuf == old(mbuf) && (honest <==> Inside())
      ensures old(honest) && Scannable() && !r.Ok? ==> exists q ::
        Stopped(dbuf, keepFlat, dedupeStrings, q, old(strTable).Keys, old(objTable).Keys, strTable.Keys, objTable.Keys)
      ensures old(honest) && Scannable() && !r.Ok? ==> Within(strTable, WORD) && Within(objTable, WORD)
      ensures OneText() ==> r.Ok? && TextDone(1, dedupeStrings, old(mbuf), old(strTable))
      ensures Grown(old(strTable), strTable, |old(mbuf)|) && Grown(old(objTable), objTable, |old(mbuf)|)
    {
      hide Path, Scan, Sound, State, Takeable, Books, Fronts, Core, Working, Noted, TraceAll, FreeTo, FirstBlocked, Header, Grown,
        AllFar, Traceable, TextDone, Given, Fits, AtRest, PieceOf, Inside, OneText, Shelved, Stopped, Merged, Total;
      ghost var was, wasHonest, strs, objs, from0 := mbuf, honest, strTable, objTable, from;
      if honest {
        RestingInside();
      }
      FairHere();
      var end := |mbuf|;
      Begin();
      r := MergeItems();
      FrontsLong(was, mbuf);
      if !r.Ok? {
        FrontsCut(was, mbuf);
        mbuf := mbuf[..end];
        Undo(was, wasHonest, strs, objs, from0);
        if wasHonest {
          StillInside(was, strs, objs);
        }
        return;
      }
      if honest {
        Through(didx);
      }
      Commit();
    }

    /** What the two passes find out about the document. */
    lemma FairHere()
      ensures Takeable(dbuf, keepFlat) && Path(dbuf, 1, |dbuf|) <==> Scannable()
      ensures Traceable(dbuf, keepFlat) ==> AllFar(dbuf)
      ensures forall q, s0, o0, s1, o1 :: Stopped(dbuf, keepFlat, dedupeStrings, q, s0, o0, s1, o1) ==> !Traceable(dbuf, keepFlat)
    {
      hide Takeable, Path, Traceable, AllFar, FirstBlocked, Given;
      NotTraceable(dbuf, keepFlat);
    }

    lemma Through(e: nat)
      requires Merged(e)
      ensures AllFar(dbuf) ==> (Traceable(dbuf, keepFlat) <==> FreeTo(dbuf, at, e))
    {
      hide Walk, Header, AllFar, Traceable, FreeTo;
      FreeAll(dbuf, keepFlat, e);
    }

    lemma StillInside(was: seq<byte>, strs: map<seq<byte>, nat>, objs: map<seq<byte>, nat>)
      requires Grown(strs, strTable, |was|) && Grown(objs, objTable, |was|) && |mbuf| == |was|
      requires Within(strs, |was|) && Within(objs, |was|)
      ensures Inside() <==> strTable == strs && objTable == objs
    {
      GrownShows(strs, strTable, |was|);
      GrownShows(objs, objTable, |was|);
      hide Grown;
    }

    /** At rest the tables name only the output. */
    lemma RestingInside()
      requires AtRest()
      ensures Inside() && Within(strTable, |mbuf|) && Within(objTable, |mbuf|) && length == Total(done.docs, |done.docs|)
      ensures Core(mbuf, |mbuf|, kept, kept, done, [], [], Loose) && done.body == mbuf
      ensures Shelved(keepFlat, dedupeStrings, mbuf, kept, done.docs, strTable, objTable, from)
    {
      CoreMarks(mbuf, mbuf, |mbuf|, marks, kept, done, [], [], Loose);
      hide Scan, Core, OriginOk, AllLook, OriginsIn, GoDocs;
      TableWithin(strTable, from.strings, mbuf, marks);
      TableWithin(objTable, from.classes, mbuf, marks);
    }

    static lemma TableWithin(table: map<seq<byte>, nat>, from: map<seq<byte>, Origin>, buf: seq<byte>, marks: set<nat>)
      requires TableOk(table, from, buf, marks) && forall x :: x in marks ==> x < |buf|
      ensures Within(table, |buf|)
    {
      hide Scan, OriginOk;
      forall s | s in table
        ensures table[s] < |buf|
      {
        assert EntryAt(table[s], from[s], s, buf, marks);
      }
    }

    ghost method Begin()
      requires Resting() && !finished && 1 <= |dbuf| && |mbuf| + GROWTH * |dbuf| < WORD
      requires forall x :: x in trackTable ==> trackTable[x] == -1
      requires Scannable() ==> forall i :: TraceAll(dbuf, i, i, trackTable, trackIdxs)
      modifies `honest, `at, `base, `m, `img
      ensures honest == (old(honest) && Takeable(dbuf, keepFlat))
      ensures honest ==> Working(at) && (Scannable() ==> Tracing(at))
      ensures honest ==> base == |mbuf|
    {
      hide Path, Scan, State, Core, Noted, TraceAll, Sound, Shelved, Books, Walk;
      honest := honest && Takeable(dbuf, keepFlat);
      if honest {
        at := Header(dbuf, keepFlat).value.0;
        TakeableHeader(dbuf, keepFlat);
        TakeableSpelled(dbuf, keepFlat);
        HeaderName(dbuf, keepFlat);
        hide Header, Takeable;
        StateStart(dbuf, at, mbuf, marks, done);
        ShelvedDocs();
        BooksOpen(dbuf, keepFlat, dedupeStrings, mbuf, marks, done.docs, strTable, objTable, from, trackTable);
      }
      var a: nat := at;
      base, m, img := |mbuf|, map[a := |mbuf|], map[];
    }

    lemma ShelvedDocs()
      requires AtRest()
      ensures GoDocs(done.docs, keepFlat)
    {
      hide Core, TableOk, AllLook, OriginsIn, ImagesIn, GoDocs;
    }

    /** A failed second pass leaves everything as it was, but for what was entered into the tables. */
    ghost method Undo(was: seq<byte>, wasHonest: bool, strs: map<seq<byte>, nat>, objs: map<seq<byte>, nat>, from0: Origins)
      requires !finished && FIRST <= |mbuf|
      requires wasHonest ==> Core(was, |was|, kept, kept, done, [], [], Loose) && done.body == was
      requires wasHonest ==> Shelved(keepFlat, dedupeStrings, was, kept, done.docs, strs, objs, from0)
      requires wasHonest ==> length == Total(done.docs, |done.docs|)
      modifies `honest, `marks, `from
      ensures Resting() && honest == (wasHonest && mbuf == was && strTable == strs && objTable == objs)
    {
      hide Core, Shelved, Total;
      honest := wasHonest && mbuf == was && strTable == strs && objTable == objs;
      marks, from := kept, from0;
    }

    ghost method Commit()
      requires !finished && FIRST <= |mbuf| && (honest ==> Working(didx) && Merged(didx))
      requires honest ==> length == Total(done.docs, |done.docs|) + Header(dbuf, keepFlat).value.1
      modifies `kept, `done
      ensures Resting()
      ensures honest ==> Inputs(done.docs) == Inputs(old(done).docs) + [PieceOf(dbuf, keepFlat)] && |mbuf| <= base + GROWTH * |dbuf|
    {
      hide Path, Scan, Core, Takeable, Walk, Header, GoDocs, Books, Shelved, GoDoc, Sound, Current;
      if honest {
        var n := Header(dbuf, keepFlat).value.1;
        var d := Doc(Piece(dbuf, at, n), didx, m, img);
        CoreDone(d.part, dbuf, at, didx, mbuf, base, marks, kept, done, m, img, [], [], Loose);
        CurrentSize(dbuf, at, didx, mbuf, base, marks, m, img, [], [], Loose);
        StateDoc(dbuf, keepFlat, didx, mbuf, base, marks, kept, done, m, img);
        BooksClose(d, keepFlat, dedupeStrings, mbuf, marks, done.docs, strTable, objTable, from, trackTable);
        TotalMore(done.docs, d);
        kept, done := marks, Ledger(mbuf, done.docs + [d]);
      }
    }

    /** Writes the number of items over the padding, the first time. */
    method Finish() returns (r: Ending, body: seq<byte>)
      requires Resting()
      modifies `mbuf, `finished
      ensures Resting()
      ensures r.Ok? ==> finished && body == mbuf
      ensures old(finished) ==> r.Ok? && body == old(mbuf)
      ensures !old(finished) && COUNT_AT + |Write(length)| <= |old(mbuf)| ==> r.Ok? && body == Finished(old(mbuf), length)
      ensures !old(finished) && honest && length <= MAX_COUNT ==>
        && r.Ok? && Laid(body, done.docs, kept, Loose, |Write(length)|)
        && (Right(body, Inputs(done.docs), length) <==> AllParse(done.docs) && FormsAgree(InputSet(done.docs), keepFlat, dedupeStrings))
        && (length > 0 ==> (Parse(body, 1, [Item]) == Some(|body|) <==> AllParse(done.docs)))
      ensures !old(finished) && honest && length <= MAX_COUNT && AllParse(done.docs)
              && FormsAgree(InputSet(done.docs), keepFlat, dedupeStrings) ==>
        forall d: nat, k :: 0 <= k < |AllTrees(Inputs(done.docs), d)| ==> Clean(AllTrees(Inputs(done.docs), d)[k])
    {
      hide Scan, Core, Path, Parse, Meaning, Clean, Laid, FormsAgree, AllParse, Right, AllTrees, TableOk, AllLook, OriginsIn, ImagesIn,
        GoDocs, Finished;
      body := mbuf;
      if finished {
        return Ok, body;
      }
      if honest && length <= MAX_COUNT {
        CountFits(length);
        FinishedLaid(mbuf, marks, kept, done, [], [], Loose);
        GoRight(mbuf, marks, done, keepFlat, dedupeStrings, from);
      }
      finished := true;
      r, body := PutUvarint(body, COUNT_AT, length);
      FinishedIs(mbuf, length);
      mbuf := body;
    }
  }

  lemma FinishedIs(b: seq<byte>, n: nat)
    ensures COUNT_AT + |Write(n)| <= |b| ==> Finished(b, n) == b[..COUNT_AT] + Write(n) + b[COUNT_AT + |Write(n)|..]
  {
  }

  lemma TotalMore(docs: seq<Doc>, d: Doc)
    ensures Total(docs + [d], |docs| + 1) == Total(docs, |docs|) + d.part.n
    ensures Inputs(docs + [d]) == Inputs(docs) + [d.part]
  {
    InputsNext(docs, d);
    hide Inputs;
    TotalKept(docs, d, |docs|);
    TotalNext(docs + [d], |docs|);
    assert (docs + [d])[|docs|] == d;
  }

  lemma InputsNext(docs: seq<Doc>, d: Doc)
    ensures Inputs(docs + [d]) == Inputs(docs) + [d.part]
  {
  }

  lemma TotalNext(docs: seq<Doc>, k: nat)
    requires k < |docs|
    ensures Total(docs, k + 1) == Total(docs, k) + docs[k].part.n
  {
  }

  lemma {:induction false} TotalKept(docs: seq<Doc>, d: Doc, k: nat)
    requires k <= |docs|
    ensures Total(docs + [d], k) == Total(docs, k)
  {
    if k > 0 {
      TotalKept(docs, d, k - 1);
      assert (docs + [d])[k - 1] == docs[k - 1];
    }
  }

  lemma TakeableHeader(doc: seq<byte>, flat: bool)
    requires Takeable(doc, flat)
    ensures Header(doc, flat).Some? && Header(doc, flat).value.1 < KEYS && Path(doc, 1, Header(doc, flat).value.0)
    ensures 1 <= Header(doc, flat).value.0 && Sound(doc)
  {
    HeaderAt(doc, flat);
    hide Path, Scan, Walk, Sound, Header;
  }

  /** The bytes of `was` stand at the front of `now`, track flags aside. */
  ghost predicate Fronts(was: seq<byte>, now: seq<byte>) {
    |was| <= |now| && forall j :: 0 <= j < |was| ==> now[j] % HIGH == was[j] % HIGH
  }

  lemma FrontsSelf(b: seq<byte>)
    ensures Fronts(b, b)
  {
  }

  lemma FrontsMore(b: seq<byte>, more: seq<byte>)
    ensures Fronts(b, b + more)
  {
  }

  lemma FrontsPrefix(was: seq<byte>, now: seq<byte>)
    ensures was <= now ==> Fronts(was, now)
  {
  }

  lemma FrontsOn(a: seq<byte>, b: seq<byte>, c: seq<byte>)
    requires Fronts(a, b) && Fronts(b, c)
    ensures Fronts(a, c)
  {
  }

  lemma FrontsLong(was: seq<byte>, now: seq<byte>)
    requires Fronts(was, now)
    ensures |was| <= |now|
  {
  }

  lemma FrontsCut(was: seq<byte>, now: seq<byte>)
    requires Fronts(was, now)
    ensures Fronts(was, now[..|was|]) && (was <= now ==> now[..|was|] == was)
  {
  }

  /** Entries are only added, and they lie behind what was there. */
  ghost predicate Grown(was: map<seq<byte>, nat>, now: map<seq<byte>, nat>, end: nat) {
    && (forall s :: s in was ==> s in now && now[s] == was[s])
    && (forall s :: s in now && s !in was ==> now[s] >= end)
  }

  /** All that a table names lies before `end`. */
  ghost predicate Within(t: map<seq<byte>, nat>, end: nat) {
    forall s :: s in t ==> t[s] < end
  }

  lemma GrownSelf(t: map<seq<byte>, nat>, end: nat)
    ensures Grown(t, t, end)
  {
  }

  lemma GrownOn(a: map<seq<byte>, nat>, b: map<seq<byte>, nat>, c: map<seq<byte>, nat>, end: nat, end': nat)
    requires Grown(a, b, end) && Grown(b, c, end') && end <= end'
    ensures Grown(a, c, end)
  {
  }

  lemma GrownKeys(was: map<seq<byte>, nat>, now: map<seq<byte>, nat>, end: nat)
    requires Grown(was, now, end)
    ensures now.Keys == was.Keys <==> now == was
  {
    if now.Keys == was.Keys {
      forall s | s in now
        ensures s in was && now[s] == was[s]
      {
        assert s in now.Keys;
      }
    }
  }

  /** What was added shows, once the output has been cut back. */
  lemma GrownShows(was: map<seq<byte>, nat>, now: map<seq<byte>, nat>, end: nat)
    requires Grown(was, now, end) && Within(was, end)
    ensures Within(now, end) <==> now == was
  {
    if Within(now, end) {
      assert forall s :: s in now <==> s in was;
    }
  }

  /** One round more. */
  lemma Passed(was: seq<byte>, sent: seq<byte>, now: seq<byte>, strs: map<seq<byte>, nat>, str1: map<seq<byte>, nat>,
               str2: map<seq<byte>, nat>, objs: map<seq<byte>, nat>, obj1: map<seq<byte>, nat>, obj2: map<seq<byte>, nat>)
    requires Fronts(was, sent) && Fronts(sent, now)
    requires Grown(strs, str1, |was|) && Grown(str1, str2, |sent|) && Grown(objs, obj1, |was|) && Grown(obj1, obj2, |sent|)
    ensures Fronts(was, now) && Grown(strs, str2, |was|) && Grown(objs, obj2, |was|)
    ensures was <= sent && sent <= now ==> was <= now
  {
    FrontsOn(was, sent, now);
    FrontsLong(was, sent);
    GrownOn(strs, str1, str2, |was|, |sent|);
    GrownOn(objs, obj1, obj2, |was|, |sent|);
  }

  lemma LeafNoText(b: seq<byte>, i: nat)
    requires i < |b| && IsLeaf(b[i] % HIGH)
    ensures !TextAt(b, i)
  {
    StringCase(b, i);
    hide Scan;
  }

  lemma GroupCase(b: seq<byte>, i: nat)
    requires Scan(b, i).Some? && i < |b| && (b[i] % HIGH == ARRAY || b[i] % HIGH == HASH)
    ensures Read(b, i + 1).Some?
    ensures var (n, q) := Read(b, i + 1).value;
            && n <= MAX_COUNT && Scan(b, i).value == (Open(b[i] % HIGH, n), q) && Plain(Scan(b, i).value.0)
            && Wants(Scan(b, i).value.0) == (if b[i] % HIGH == HASH then Pairs(n) else Items(n))
  {
    OpenScan(b, i);
    hide Scan, Read;
  }

  lemma SmallGroupCase(b: seq<byte>, i: nat)
    requires Scan(b, i).Some? && i < |b| && ARRAYREF <= b[i] % HIGH < SHORT_BINARY
    ensures var (tag, t) := (b[i] % HIGH, Scan(b, i).value.0);
            && Scan(b, i).value.1 == i + 1 && t.Open? && Plain(t) && !IsObject(t) && !Prefixes(t)
            && Wants(t) == (if tag >= HASHREF then Pairs(tag % 16) else Items(tag % 16))
  {
    OpenScan(b, i);
    hide Scan;
  }

  lemma FakeCase(b: seq<byte>, i: nat)
    requires Scan(b, i).Some? && i < |b| && !Scan(b, i).value.0.Other?
    requires b[i] % HIGH == PAD || b[i] % HIGH == REFN || b[i] % HIGH == WEAKEN || b[i] % HIGH == EXTEND
    ensures var t := Scan(b, i).value.0; Scan(b, i).value.1 == i + 1 && Plain(t) && Prefixes(t) && !IsObject(t)
  {
    OpenScan(b, i);
    hide Scan;
  }

  lemma ObjectCase(b: seq<byte>, i: nat)
    requires i < |b| && (b[i] % HIGH == OBJECT || b[i] % HIGH == OBJECT_FREEZE)
    ensures Scan(b, i) == Some((Open(b[i] % HIGH, 0), i + 1)) && IsObject(Scan(b, i).value.0)
  {
  }

  /** The counters for n items and for n pairs. */
  lemma CounterFrame(n: nat)
    ensures n < KEYS ==> n % UNSIGNED == n && Frame(n) == Items(n)
    ensures 2 * n < KEYS ==> (2 * n) % UNSIGNED == 2 * n && Frame(2 * n + KEYS) == Pairs(n)
    ensures n == 1 ==> Items(n) == [Item]
  {
    if n < KEYS {
      FrameItems(n);
    }
    if 2 * n < KEYS {
      FrameHash(n);
    }
  }

  lemma PlainOnly(t: Token)
    ensures Plain(t) ==> !t.Other? && !IsObject(t)
  {
  }

  /** A key is due exactly when the counter on top says so. */
  lemma DueNext(stack: seq<nat>)
    requires stack != [] && stack[|stack| - 1] % KEYS > 0
    ensures Todo(stack) != [] && (Todo(stack)[0] == Key <==> KeyNext(stack[|stack| - 1]))
  {
    hide Frame, Todo, KeyNext;
    var rest, top := stack[..|stack| - 1], stack[|stack| - 1];
    assert stack == rest + [top];
    TodoNext(rest, top, 0);
  }

  lemma TodoOne(n: nat)
    requires n < KEYS
    ensures Todo([n]) == Items(n)
  {
    TodoPush([], n);
    FrameItems(n);
    assert [] + [n] == [n];
  }

  lemma NoneDue()
    ensures Todo([]) == []
  {
  }

  lemma NotedStep(b: seq<byte>, p: nat)
    requires p < |b| && Scan(b, p).Some?
    ensures Noted(b, p) == Links(Scan(b, p).value.0) + (if b[p] >= HIGH then {p} else {}) + Noted(b, Scan(b, p).value.1)
  {
    hide Scan;
  }

  lemma NotedEnd(b: seq<byte>, p: nat)
    requires p >= |b|
    ensures Noted(b, p) == {}
  {
  }

  lemma NoLinks(b: seq<byte>, p: nat)
    requires p < |b| && Linkless(b[p] % HIGH)
    ensures Scan(b, p).Some? ==> Links(Scan(b, p).value.0) == {}
  {
    LinklessScan(b, p);
    hide Scan;
  }

  /** The members of a set in rising order. */
  method InOrder(s: set<nat>) returns (r: seq<nat>)
    ensures forall x :: x in r <==> x in s
    ensures forall j, k :: 0 <= j < k < |r| ==> r[j] < r[k]
  {
    r := [];
    var rest := s;
    while rest != {}
      invariant forall x :: x in s <==> x in rest || x in r
      invariant forall j, k :: 0 <= j < k < |r| ==> r[j] < r[k]
      invariant forall x, y :: x in r && y in rest ==> x < y
      decreases |rest|
    {
      var x := Minimum(rest);
      var more := r + [x];
      forall j, k | 0 <= j < k < |more|
        ensures more[j] < more[k]
      {
        assert more[j] in r;
      }
      r, rest := more, rest - {x};
    }
  }

  method Minimum(s: set<nat>) returns (x: nat)
    requires s != {}
    ensures x in s && forall y :: y in s ==> x <= y
  {
    x :| x in s;
    var rest := s;
    while rest != {}
      invariant x in s && rest <= s && forall y :: y in s && y !in rest ==> x <= y
      decreases |rest|
    {
      var y :| y in rest;
      x, rest := if y < x then y else x, rest - {y};
    }
  }

  /** A number written over the bytes from `at` on; there must be room. */
  method PutUvarint(b: seq<byte>, at: nat, v: nat) returns (r: Ending, out: seq<byte>)
    ensures at + |Write(v)| <= |b| ==> r.Ok? && out == b[..at] + Write(v) + b[at + |Write(v)|..]
    ensures |out| == |b| && (r.Ok? || r.Panic?)
  {
    out := b;
    var pos, n: nat := at, v;
    while n >= HIGH
      invariant |out| == |b| && at <= pos && pos + |Write(n)| == at + |Write(v)|
      invariant pos <= |b| || at > |b|
      invariant at + |Write(v)| <= |b| ==> out[..pos] + Write(n) == b[..at] + Write(v) && out[pos..] == b[pos..]
      decreases n
    {
      if pos >= |b| {
        return Panic, out;
      }
      var was := out;
      out := out[pos := n % HIGH + HIGH];
      assert out[..pos + 1] == was[..pos] + [n % HIGH + HIGH];
      pos, n := pos + 1, n / HIGH;
    }
    if pos >= |b| {
      return Panic, out;
    }
    var was := out;
    out := out[pos := n];
    assert out == was[..pos] + [n] + was[pos + 1..];
    return Ok, out;
  }

  // ----- whole runs -----

  ghost predicate AllTakeable(docs: seq<seq<byte>>, flat: bool) {
    forall k :: 0 <= k < |docs| ==> Takeable(docs[k], flat)
  }

  ghost predicate AllTraceable(docs: seq<seq<byte>>, flat: bool) {
    forall k :: 0 <= k < |docs| ==> Traceable(docs[k], flat)
  }

  /** Documents that are made of tags to their last byte. */
  ghost predicate AllTags(docs: seq<seq<byte>>) {
    forall k :: 0 <= k < |docs| ==> Path(docs[k], 1, |docs[k]|)
  }

  /** Documents that are one well-formed item each. */
  ghost predicate AllItems(docs: seq<seq<byte>>) {
    forall k :: 0 <= k < |docs| ==> Parse(docs[k], 1, [Item]).Some?
  }

  function PiecesOf(docs: seq<seq<byte>>, flat: bool): (ps: seq<Piece>)
    ensures |ps| == |docs|
  {
    seq(|docs|, k requires 0 <= k < |docs| => PieceOf(docs[k], flat))
  }

  /** How many items are asked for. */
  function Sum(ps: seq<Piece>): nat {
    if ps == [] then 0 else Sum(ps[..|ps| - 1]) + ps[|ps| - 1].n
  }

  function SetOf(docs: seq<seq<byte>>): set<seq<byte>> {
    set k | 0 <= k < |docs| :: docs[k]
  }

  lemma PiecesNext(docs: seq<seq<byte>>, flat: bool, k: nat)
    requires k < |docs|
    ensures PiecesOf(docs[..k + 1], flat) == PiecesOf(docs[..k], flat) + [PieceOf(docs[k], flat)]
    ensures Sum(PiecesOf(docs[..k + 1], flat)) == Sum(PiecesOf(docs[..k], flat)) + PieceOf(docs[k], flat).n
  {
    hide PieceOf;
    var ps := PiecesOf(docs[..k + 1], flat);
    assert ps == PiecesOf(docs[..k], flat) + [PieceOf(docs[k], flat)];
    assert ps[..|ps| - 1] == PiecesOf(docs[..k], flat);
  }

  lemma NoPieces(docs: seq<seq<byte>>, flat: bool)
    ensures docs[..0] == [] && PiecesOf([], flat) == [] && Sum([]) == 0 && Bytes([]) == 0
  {
  }

  /** Documents known by their pieces. */
  lemma SameDocs(docs: seq<Doc>, src: seq<seq<byte>>, flat: bool)
    requires Inputs(docs) == PiecesOf(src, flat)
    ensures AllParse(docs) <==> AllItems(src)
    ensures InputSet(docs) == SetOf(src)
  {
    hide Parse, PieceOf;
    assert |docs| == |src|;
    forall k | 0 <= k < |docs|
      ensures docs[k].part.inp == src[k]
    {
      assert Inputs(docs)[k] == PiecesOf(src, flat)[k];
      PieceIs(src[k], flat);
    }
    forall b
      ensures b in InputSet(docs) <==> b in SetOf(src)
    {
      if b in InputSet(docs) {
        var k :| 0 <= k < |docs| && docs[k].part.inp == b;
        assert src[k] == b;
      }
      if b in SetOf(src) {
        var k :| 0 <= k < |src| && src[k] == b;
        assert docs[k].part.inp == b;
      }
    }
  }

  lemma PieceIs(doc: seq<byte>, flat: bool)
    ensures PieceOf(doc, flat).inp == doc
    ensures Header(doc, flat).Some? ==> PieceOf(doc, flat).n == Header(doc, flat).value.1
  {
    hide Header;
  }

  /** Merges documents one after the other and finishes.  The result means the array of what is asked for of
      all documents, exactly when each is one well-formed item, and strings that are looked up in the same
      table and have the same bytes have the same form. */
  method MergeAll(dedupeStrings: bool, keepFlat: bool, docs: seq<seq<byte>>) returns (r: Ending, body: seq<byte>)
    requires forall k :: 0 <= k < |docs| ==> 1 <= |docs[k]|
    ensures var (ps, n) := (PiecesOf(docs, keepFlat), Sum(PiecesOf(docs, keepFlat)));
            AllTakeable(docs, keepFlat) && n <= MAX_COUNT && r.Ok? ==>
              && (Right(body, ps, n) <==> AllItems(docs) && FormsAgree(SetOf(docs), keepFlat, dedupeStrings))
              && (n > 0 ==> (Parse(body, 1, [Item]) == Some(|body|) <==> AllItems(docs)))
    ensures var (ps, n) := (PiecesOf(docs, keepFlat), Sum(PiecesOf(docs, keepFlat)));
            AllTakeable(docs, keepFlat) && n <= MAX_COUNT && r.Ok? && AllItems(docs) && FormsAgree(SetOf(docs), keepFlat, dedupeStrings) ==>
              forall d: nat, j :: 0 <= j < |AllTrees(ps, d)| ==> Clean(AllTrees(ps, d)[j])
    ensures AllTakeable(docs, keepFlat) && AllTags(docs) && Sum(PiecesOf(docs, keepFlat)) <= MAX_COUNT
            && 8 + 11 * Bytes(docs) < 0x1_0000_0000_0000_0000 ==>
      (r.Ok? <==> AllTraceable(docs, keepFlat))
  {
    hide Takeable, Traceable, Meaning, Scan, Core, Path, Parse, Laid, Clean, Fronts, TableOk, Bytes, Sum, PiecesOf, PieceOf, Header,
      Right, FormsAgree, AllTrees, InputSet, SetOf, AllItems, AllParse, Finished, Write, Inputs, Within, Grown, Stopped, AllFar, Total,
      Merger.AtRest, Merger.OneText, Merger.TextDone, Merger.Inside;
    body := [];
    var mrg := new Merger(dedupeStrings, keepFlat);
    NoPieces(docs, keepFlat);
    var k := 0;
    ghost var taken := AllTakeable(docs, keepFlat);
    ghost var sized := AllTags(docs) && FIRST + GROWTH * Bytes(docs) < WORD;
    while k < |docs|
      invariant k <= |docs| && fresh(mrg) && mrg.Resting() && !mrg.finished
      invariant mrg.keepFlat == keepFlat && mrg.dedupeStrings == dedupeStrings
      invariant taken ==> mrg.honest && Inputs(mrg.done.docs) == PiecesOf(docs[..k], keepFlat)
      invariant taken ==> mrg.length == Sum(PiecesOf(docs[..k], keepFlat)) && |mrg.mbuf| <= FIRST + GROWTH * Bytes(docs[..k])
      invariant taken && sized ==> forall i :: 0 <= i < k ==> Traceable(docs[i], keepFlat)
    {
      BytesNext(docs, k);
      PiecesNext(docs, keepFlat, k);
      PieceIs(docs[k], keepFlat);
      assert taken && sized ==> mrg.Fair(docs[k]);
      r := mrg.Append(docs[k]);
      if !r.Ok? {
        assert taken && sized ==> !Traceable(docs[k], keepFlat);
        return;
      }
      k := k + 1;
    }
    assert docs[..k] == docs;
    r, body := mrg.Finish();
    if taken {
      SameDocs(mrg.done.docs, docs, keepFlat);
    }
  }
}
